/**
 * The password synthesiser `secpass_pr_sym`. One attempt starts with an
 * optional separator symbol, then appends capitalised words, each followed
 * by an optional separator, until the model-based entropy reaches
 * `min_entropy`; a buffer too full for one more word ends the whole call with
 * a NULL password. An attempt is accepted when the naive estimate (every
 * letter uniform over 26, every symbol uniform over 38) reaches
 * `min_entropy` and the model-based entropy stays within `max_extra_bits`
 * above it; otherwise the next attempt starts over in the same buffer.
 */
module Passwords {
  import opened Options
  import opened Alphabet
  import opened Random
  import opened Sampling
  import opened Words

  /** The `password` struct: `string` is `buf` when `present` and NULL otherwise. */
  datatype Password = Password(present: bool, length: int, entropy: real)

  /** `{NULL, 0, 0.0}`, returned when the buffer cannot take another word. */
  const NoPassword: Password := Password(false, 0, 0.0)

  /** The shortest and longest word `secpass_pr_sym` asks `rand_pr_word` for. */
  const MIN_WORD: int := 2
  const MAX_WORD: int := 6

  /** `(int)x` for a double: truncation toward zero. */
  function Trunc(x: real): (r: int)
    ensures x >= 0.0 ==> r as real <= x < r as real + 1.0
    ensures x < 0.0 ==> r as real - 1.0 < x <= r as real
  {
    if x >= 0.0 then x.Floor else -((-x).Floor)
  }

  /** The state of one attempt: the buffer contents, `pass.length`, `pass.entropy`, `symnum` and the next draw. */
  datatype State = State(buf: seq<char>, length: int, entropy: real, symnum: int, next: nat)

  /**
   * `if (rand_double() < 0.5) { pass.entropy += rand_symbol(buf + pass.length++) + 1; symnum++; }`:
   * a coin, and on heads a symbol appended, worth its entropy plus one bit for the coin.
   */
  function Separator(env: Env, st: State): (r: State)
    requires 0 <= st.length < |st.buf|
    ensures |r.buf| == |st.buf| && st.length <= r.length <= st.length + 1
  {
    if Unit(env.draws(st.next)) < 0.5 then WithSymbol(st, RandSymbol(env, st.next + 1))
    else st.(next := st.next + 1)
  }

  /** The symbol `s` written at `pass.length`, counted, and its entropy plus the coin's bit added. */
  function WithSymbol(st: State, s: Pick): (r: State)
    requires 0 <= st.length < |st.buf| && s.letter.Some?
    ensures |r.buf| == |st.buf| && r.length == st.length + 1 && r.buf[st.length] == s.letter.value
  {
    State(st.buf[st.length := s.letter.value], st.length + 1, st.entropy + (s.entropy + 1.0), st.symnum + 1, s.next)
  }

  /**
   * `rand_pr_word(buf + pass.length, 2, 6)`, its first letter made upper case
   * in the buffer, and its length and entropy added to the password's.
   */
  function WithWord(env: Env, st: State): (r: State)
    requires ValidEnv(env) && 0 <= st.length && st.length + MAX_WORD < |st.buf|
    ensures |r.buf| == |st.buf| && st.length + 1 <= r.length <= st.length + MAX_WORD
  {
    WordShape(env, MIN_WORD, MAX_WORD, st.next);
    PutWord(st, Word(env, MIN_WORD, MAX_WORD, st.next))
  }

  /** The word `w` written at `pass.length` with its first letter made upper case, and its length and entropy added. */
  function PutWord(st: State, w: WordOut): (r: State)
    requires 0 <= st.length < |st.buf|
    ensures |r.buf| == |st.buf| && r.length == st.length + w.length
  {
    var b := Overwrite(st.buf, st.length, w.written);
    State(b[st.length := ToUpper(b[st.length])], st.length + w.length, st.entropy + w.entropy, st.symnum, w.next)
  }

  /** The loop state `st`, and whether the loop ended without the guard returning NULL. */
  datatype Grown = Grown(st: State, room: bool)

  /** The guard `buf_size - pass.length - 1 < 7`: no room for a longest word, a symbol and the terminator. */
  predicate Full(st: State) {
    |st.buf| - st.length - 1 < MAX_WORD + 1
  }

  /**
   * The `while ((int)pass.entropy < min_entropy)` loop: while the entropy is
   * short, return NULL on a full buffer, else add a word and perhaps a separator.
   */
  function Grow(env: Env, st: State, minEntropy: int): (g: Grown)
    requires ValidEnv(env) && 0 <= st.length < |st.buf|
    ensures |g.st.buf| == |st.buf| && st.length <= g.st.length < |g.st.buf|
    decreases |st.buf| - st.length
  {
    if Trunc(st.entropy) >= minEntropy then Grown(st, true)
    else if Full(st) then Grown(st, false)
    else Grow(env, Separator(env, WithWord(env, st)), minEntropy)
  }

  /** `(int)((pass.length - symnum) * log_2(26) + symnum * log_2(strlen(symbols)))`: the naive estimate. */
  function Naive(env: Env, length: int, symnum: int): int {
    Trunc((length - symnum) as real * env.log2(26.0) + symnum as real * env.log2(|SYMBOLS| as real))
  }

  /** The acceptance test: the naive estimate reaches the minimum and the model-based one stays within the extra bits. */
  predicate Accepts(env: Env, st: State, minEntropy: int, maxExtraBits: int) {
    Naive(env, st.length, st.symnum) >= minEntropy && Trunc(st.entropy) <= minEntropy + maxExtraBits
  }

  datatype Verdict = Accepted | Rejected | NoRoom

  /** How one attempt ends: its final state (on acceptance, with the terminator written) and its verdict. */
  datatype Outcome = Outcome(st: State, verdict: Verdict)

  /** One pass of the `for (;;)` loop of `secpass_pr_sym`, in a buffer holding `b`, from draw number `k`. */
  function Attempt(env: Env, b: seq<char>, minEntropy: int, maxExtraBits: int, k: nat): (o: Outcome)
    requires ValidEnv(env) && |b| >= 2
    ensures |o.st.buf| == |b| && 0 <= o.st.length < |b|
  {
    var g := Grow(env, Separator(env, State(b, 0, 0.0, 0, k)), minEntropy);
    if !g.room then Outcome(g.st, NoRoom)
    else if Accepts(env, g.st, minEntropy, maxExtraBits) then
      Outcome(g.st.(buf := g.st.buf[g.st.length := NUL]), Accepted)
    else Outcome(g.st, Rejected)
  }

  /** The number of characters of `s` drawn from the symbol pool. */
  function SymbolCount(s: seq<char>): nat {
    if s == [] then 0 else SymbolCount(s[..|s| - 1]) + (if IsSymbol(s[|s| - 1]) then 1 else 0)
  }

  /** A character a password may hold: a letter of either case, or a symbol. */
  predicate Legal(c: char) {
    IsLetter(c) || IsUpper(c) || IsSymbol(c)
  }

  /** The password so far: legal characters, `symnum` of them symbols. */
  ghost predicate Composed(st: State) {
    && 0 <= st.length <= |st.buf|
    && (forall i | 0 <= i < st.length :: Legal(st.buf[i]))
    && st.symnum == SymbolCount(st.buf[..st.length])
  }

  lemma {:induction false} SymbolCountAppend(s: seq<char>, t: seq<char>)
    ensures SymbolCount(s + t) == SymbolCount(s) + SymbolCount(t)
    decreases |t|
  {
    if t != [] {
      var n := |t| - 1;
      assert (s + t)[..|s + t| - 1] == s + t[..n];
      SymbolCountAppend(s, t[..n]);
    } else {
      assert s + t == s;
    }
  }

  lemma {:induction false} LettersOnly(t: seq<char>)
    requires forall i | 0 <= i < |t| :: IsLetter(t[i]) || IsUpper(t[i])
    ensures SymbolCount(t) == 0
    decreases |t|
  {
    if t != [] {
      LettersOnly(t[..|t| - 1]);
    }
  }

  /** A separator keeps the password composed, one more symbol when it is appended. */
  lemma SeparatorComposed(env: Env, st: State)
    requires Composed(st) && st.length < |st.buf|
    ensures Composed(Separator(env, st))
  {
    if Unit(env.draws(st.next)) < 0.5 {
      SymbolComposed(st, RandSymbol(env, st.next + 1));
    }
  }

  /** Appending a symbol keeps the password composed and counts one more symbol. */
  lemma SymbolComposed(st: State, s: Pick)
    requires Composed(st) && st.length < |st.buf| && s.letter.Some? && IsSymbol(s.letter.value)
    ensures Composed(WithSymbol(st, s))
  {
    var r := WithSymbol(st, s);
    assert r.buf[..r.length] == st.buf[..st.length] + [s.letter.value];
    SymbolCountAppend(st.buf[..st.length], [s.letter.value]);
    assert SymbolCount([s.letter.value]) == 1 by {
      assert [s.letter.value][..0] == [];
    }
  }

  /** A word keeps the password composed: its letters are letters, its first capitalised, none a symbol. */
  lemma WordComposed(env: Env, st: State)
    requires ValidEnv(env) && Composed(st) && st.length + MAX_WORD < |st.buf|
    ensures Composed(WithWord(env, st))
  {
    WordShape(env, MIN_WORD, MAX_WORD, st.next);
    PutWordComposed(st, Word(env, MIN_WORD, MAX_WORD, st.next));
  }

  /** Writing the letters of a word, the first made upper case, keeps the password composed and adds no symbol. */
  lemma PutWordComposed(st: State, w: WordOut)
    requires Composed(st) && IsWord(w.written) && w.length <= |w.written| && st.length + |w.written| < |st.buf|
    ensures Composed(PutWord(st, w))
  {
    var r := PutWord(st, w);
    var added := r.buf[st.length..r.length];
    forall i | 0 <= i < |added| ensures IsLetter(added[i]) || IsUpper(added[i]) {
      assert added[i] == r.buf[st.length + i];
      assert IsLetter(w.written[i]);
    }
    assert r.buf[..r.length] == st.buf[..st.length] + added;
    SymbolCountAppend(st.buf[..st.length], added);
    LettersOnly(added);
  }

  /**
   * The growing loop keeps the password composed and inside the buffer, and
   * ends with room only once the truncated entropy reaches the minimum.
   */
  lemma {:induction false} GrowShape(env: Env, st: State, minEntropy: int)
    requires ValidEnv(env) && Composed(st) && st.length < |st.buf|
    ensures var g := Grow(env, st, minEntropy);
      && Composed(g.st) && g.st.length < |g.st.buf| && |g.st.buf| == |st.buf|
      && (g.room ==> Trunc(g.st.entropy) >= minEntropy)
      && (!g.room ==> Full(g.st) && Trunc(g.st.entropy) < minEntropy)
    decreases |st.buf| - st.length
  {
    if Trunc(st.entropy) < minEntropy && !Full(st) {
      var mid := WithWord(env, st);
      WordComposed(env, st);
      SeparatorComposed(env, mid);
      GrowShape(env, Separator(env, mid), minEntropy);
    }
  }

  /**
   * An accepted attempt: its truncated model-based entropy lies in
   * [min_entropy, min_entropy + max_extra_bits]; the naive estimate of the
   * very characters it wrote reaches min_entropy; the password fits the
   * buffer with its terminator; it holds letters and symbols only, `symnum`
   * of them symbols.
   */
  lemma AcceptedAttempt(env: Env, b: seq<char>, minEntropy: int, maxExtraBits: int, k: nat)
    requires ValidEnv(env) && |b| >= 2
    requires Attempt(env, b, minEntropy, maxExtraBits, k).verdict == Accepted
    ensures var st := Attempt(env, b, minEntropy, maxExtraBits, k).st;
      && minEntropy <= Trunc(st.entropy) <= minEntropy + maxExtraBits
      && 0 <= st.length < |st.buf| == |b| && st.buf[st.length] == NUL
      && (forall i | 0 <= i < st.length :: Legal(st.buf[i]))
      && st.symnum == SymbolCount(st.buf[..st.length])
      && Naive(env, st.length, SymbolCount(st.buf[..st.length])) >= minEntropy
  {
    var st0 := State(b, 0, 0.0, 0, k);
    SeparatorComposed(env, st0);
    var g := Grow(env, Separator(env, st0), minEntropy);
    GrowShape(env, Separator(env, st0), minEntropy);
    var st := g.st.(buf := g.st.buf[g.st.length := NUL]);
    assert st.buf[..st.length] == g.st.buf[..g.st.length];
  }

  /** An attempt ends with NoRoom exactly when the buffer filled up before the entropy reached the minimum. */
  lemma NoRoomAttempt(env: Env, b: seq<char>, minEntropy: int, maxExtraBits: int, k: nat)
    requires ValidEnv(env) && |b| >= 2
    ensures var o := Attempt(env, b, minEntropy, maxExtraBits, k);
      (o.verdict == NoRoom <==> Trunc(o.st.entropy) < minEntropy) && (o.verdict == NoRoom ==> Full(o.st))
  {
    var st0 := State(b, 0, 0.0, 0, k);
    SeparatorComposed(env, st0);
    var g := Grow(env, Separator(env, st0), minEntropy);
    GrowShape(env, Separator(env, st0), minEntropy);
    var o := Attempt(env, b, minEntropy, maxExtraBits, k);
    assert o.verdict == NoRoom <==> !g.room;
    assert o.st.entropy == g.st.entropy;
    assert o.verdict == NoRoom ==> o.st == g.st;
  }

  /** What `secpass_pr_sym` has done after at most `attempts` passes of its retry loop. */
  datatype Run = Run(pass: Password, buf: seq<char>, next: nat, finished: bool)

  /**
   * The `for (;;)` loop, cut off after `attempts` passes (`finished` false):
   * a rejected attempt starts over in the same buffer with the next draws.
   */
  function Secpass(env: Env, b: seq<char>, minEntropy: int, maxExtraBits: int, k: nat, attempts: nat): (r: Run)
    requires ValidEnv(env) && |b| >= 2
    ensures |r.buf| == |b| && Returned(env, r, minEntropy, maxExtraBits)
    decreases attempts
  {
    if attempts == 0 then Run(NoPassword, b, k, false)
    else
      var o := Attempt(env, b, minEntropy, maxExtraBits, k);
      match o.verdict
      case Accepted =>
        AcceptedAttempt(env, b, minEntropy, maxExtraBits, k);
        Run(Password(true, o.st.length, o.st.entropy), o.st.buf, o.st.next, true)
      case NoRoom => Run(NoPassword, o.st.buf, o.st.next, true)
      case Rejected => Secpass(env, o.st.buf, minEntropy, maxExtraBits, o.st.next, attempts - 1)
  }

  /**
   * What `secpass_pr_sym` promises of a run: either it returns `{NULL, 0, 0.0}`, or a password in the buffer whose
   * truncated entropy lies in [min_entropy, min_entropy + max_extra_bits],
   * whose naive estimate (letters over 26, symbols over 38, counted in the
   * text itself) reaches min_entropy, terminated inside the buffer and made
   * of letters and symbols only. The entropy returned is the model-based one.
   */
  predicate Returned(env: Env, r: Run, minEntropy: int, maxExtraBits: int) {
    && (!r.pass.present ==> r.pass == NoPassword)
    && (r.pass.present ==>
      && r.finished
      && minEntropy <= Trunc(r.pass.entropy) <= minEntropy + maxExtraBits
      && 0 <= r.pass.length < |r.buf| && r.buf[r.pass.length] == NUL
      && (forall i | 0 <= i < r.pass.length :: Legal(r.buf[i]))
      && Naive(env, r.pass.length, SymbolCount(r.buf[..r.pass.length])) >= minEntropy)
  }

  /** One pass of the retry loop: the run is the attempt's result, or the rest of the run after a rejection. */
  lemma SecpassStep(env: Env, b: seq<char>, minEntropy: int, maxExtraBits: int, k: nat, attempts: nat)
    requires ValidEnv(env) && |b| >= 2 && attempts > 0
    ensures var o, r := Attempt(env, b, minEntropy, maxExtraBits, k), Secpass(env, b, minEntropy, maxExtraBits, k, attempts);
      && (o.verdict == Accepted ==> r == Run(Password(true, o.st.length, o.st.entropy), o.st.buf, o.st.next, true))
      && (o.verdict == NoRoom ==> r == Run(NoPassword, o.st.buf, o.st.next, true))
      && (o.verdict == Rejected ==> r == Secpass(env, o.st.buf, minEntropy, maxExtraBits, o.st.next, attempts - 1))
  {
  }

  /** On heads the separator is the symbol drawn after the coin. */
  lemma SeparatorHeads(env: Env, st: State, k: nat)
    requires 0 <= st.length < |st.buf| && st.next == k && Unit(env.draws(k)) < 0.5
    ensures Separator(env, st) == WithSymbol(st, RandSymbol(env, k + 1))
  {
  }

  /** `rand_symbol(buf + pass.length)` after a coin below 0.5, or just the coin. */
  method AddSeparator(env: Env, buf: array<char>, length: int, entropy: real, symnum: int, k: nat)
    returns (length': int, entropy': real, symnum': int, next: nat)
    requires 0 <= length < buf.Length
    modifies buf
    ensures State(buf[..], length', entropy', symnum', next) == Separator(env, State(old(buf[..]), length, entropy, symnum, k))
  {
    ghost var st := State(buf[..], length, entropy, symnum, k);
    var u := RandDouble(env.draws(k));
    assert buf[..] == st.buf;
    if u < 0.5 {
      var s := RandSymbol(env, k + 1);
      buf[length] := s.letter.value;
      length', entropy', symnum', next := length + 1, entropy + (s.entropy + 1.0), symnum + 1, s.next;
      assert buf[..] == st.buf[length := s.letter.value];
      SeparatorHeads(env, st, k);
    } else {
      length', entropy', symnum', next := length, entropy, symnum, k + 1;
      assert Separator(env, st) == st.(next := k + 1);
    }
  }

  /** `rand_pr_word(buf + pass.length, 2, 6)`, then `buf[pass.length] = toupper(buf[pass.length])`. */
  method AddWord(env: Env, buf: array<char>, length: int, entropy: real, symnum: int, k: nat)
    returns (length': int, entropy': real, next: nat)
    requires ValidEnv(env) && 0 <= length && length + MAX_WORD < buf.Length
    modifies buf
    ensures State(buf[..], length', entropy', symnum, next) == WithWord(env, State(old(buf[..]), length, entropy, symnum, k))
  {
    var n, e;
    n, e, next := RandPrWord(env, buf, length, MIN_WORD, MAX_WORD, k);
    buf[length] := ToUpper(buf[length]);
    length', entropy' := length + n, entropy + e;
  }

  /** The `while ((int)pass.entropy < min_entropy)` loop, with the guard that returns NULL. */
  method GrowPassword(env: Env, buf: array<char>, minEntropy: int, length: int, entropy: real, symnum: int, k: nat)
    returns (room: bool, length': int, entropy': real, symnum': int, next: nat)
    requires ValidEnv(env) && 0 <= length < buf.Length
    modifies buf
    ensures Grown(State(buf[..], length', entropy', symnum', next), room) ==
      Grow(env, State(old(buf[..]), length, entropy, symnum, k), minEntropy)
  {
    ghost var goal := Grow(env, State(buf[..], length, entropy, symnum, k), minEntropy);
    length', entropy', symnum', next := length, entropy, symnum, k;
    while Trunc(entropy') < minEntropy
      invariant 0 <= length' < buf.Length
      invariant Grow(env, State(buf[..], length', entropy', symnum', next), minEntropy) == goal
      decreases buf.Length - length'
    {
      if buf.Length - length' - 1 < MAX_WORD + 1 {
        return false, length', entropy', symnum', next;
      }
      length', entropy', next := AddWord(env, buf, length', entropy', symnum', next);
      length', entropy', symnum', next := AddSeparator(env, buf, length', entropy', symnum', next);
    }
    room := true;
  }

  /** One pass of the `for (;;)` loop of `secpass_pr_sym`. */
  method TryPassword(env: Env, buf: array<char>, minEntropy: int, maxExtraBits: int, k: nat)
    returns (verdict: Verdict, pass: Password, symnum: int, next: nat)
    requires ValidEnv(env) && buf.Length >= 2
    modifies buf
    ensures var o := Attempt(env, old(buf[..]), minEntropy, maxExtraBits, k);
      && buf[..] == o.st.buf && verdict == o.verdict && symnum == o.st.symnum && next == o.st.next
      && pass == Password(verdict != NoRoom, o.st.length, o.st.entropy)
  {
    var length, entropy;
    length, entropy, symnum, next := AddSeparator(env, buf, 0, 0.0, 0, k);
    var room;
    room, length, entropy, symnum, next := GrowPassword(env, buf, minEntropy, length, entropy, symnum, next);
    if !room {
      return NoRoom, Password(false, length, entropy), symnum, next;
    }
    if Naive(env, length, symnum) >= minEntropy && Trunc(entropy) <= minEntropy + maxExtraBits {
      buf[length] := NUL;
      return Accepted, Password(true, length, entropy), symnum, next;
    }
    return Rejected, Password(true, length, entropy), symnum, next;
  }

  /**
   * `secpass_pr_sym(buf, buf.Length, min_entropy, max_extra_bits)` with its
   * retry loop cut off after `attempts` passes; `finished` is false when the
   * cut-off ended it.
   */
  method SecpassPrSym(env: Env, buf: array<char>, minEntropy: int, maxExtraBits: int, k: nat, attempts: nat)
    returns (pass: Password, next: nat, finished: bool)
    requires ValidEnv(env) && buf.Length >= 2
    modifies buf
    ensures Run(pass, buf[..], next, finished) == Secpass(env, old(buf[..]), minEntropy, maxExtraBits, k, attempts)
  {
    ghost var goal := Secpass(env, buf[..], minEntropy, maxExtraBits, k, attempts);
    var left := attempts;
    next := k;
    while left > 0
      invariant Secpass(env, buf[..], minEntropy, maxExtraBits, next, left) == goal
      decreases left
    {
      var stop;
      stop, pass, next, left := Retry(env, buf, minEntropy, maxExtraBits, next, left);
      if stop {
        return pass, next, true;
      }
    }
    return NoPassword, next, false;
  }

  /** One pass of the retry loop, with `attempts` passes left: it stops with the password to return, or goes on. */
  method Retry(env: Env, buf: array<char>, minEntropy: int, maxExtraBits: int, k: nat, attempts: nat)
    returns (stop: bool, pass: Password, next: nat, left: nat)
    requires ValidEnv(env) && buf.Length >= 2 && attempts > 0
    modifies buf
    ensures left == attempts - 1
    ensures var r := Secpass(env, old(buf[..]), minEntropy, maxExtraBits, k, attempts);
      && (stop ==> r == Run(pass, buf[..], next, true))
      && (!stop ==> r == Secpass(env, buf[..], minEntropy, maxExtraBits, next, left))
  {
    left := attempts - 1;
    ghost var b := buf[..];
    ghost var o := Attempt(env, b, minEntropy, maxExtraBits, k);
    ghost var r := Secpass(env, b, minEntropy, maxExtraBits, k, attempts);
    ghost var rest := Secpass(env, o.st.buf, minEntropy, maxExtraBits, o.st.next, left);
    SecpassStep(env, b, minEntropy, maxExtraBits, k, attempts);
    var verdict, symnum;
    verdict, pass, symnum, next := TryPassword(env, buf, minEntropy, maxExtraBits, k);
    assert verdict == o.verdict && next == o.st.next && buf[..] == o.st.buf;
    stop := verdict != Rejected;
    if verdict == NoRoom {
      pass := NoPassword;
    }
  }
}
