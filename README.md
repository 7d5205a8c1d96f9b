# secpass: a verified model of the pronounceable-password generator

`secpass` builds Markov-chain letter tables from a word list and uses them to
generate pronounceable passwords. It then mixes separator symbols into the
password until the password's entropy reaches a requested minimum.
This project models the program's core in Dafny and proves properties of that model:

- **Letter tables** (`Tally`, `Tables`). The counting loop of
  `tabulate_letter_chain_frequencies` goes over the text one word at a time. A word is a maximal
  run of letters after `tolower`. For each letter, the loop bumps the
  five tables `f_Xc`, `f_xc`, `f_xC`, `f_xxc` and `f_xxC`, using the context `x`, `y`,
  `x_last`. It then runs `normalize_dist` on every row.
  - The tables are a class
    `Markov` of five `DistTable`s. Each `DistTable` holds its weights in an `array2<real>` and the
    `exists` flags in an `array<bool>`.
  - Its methods are proved equal to a
    reference definition, `TallyOf`. That definition splits the text at every non-letter and gives the
    counts of each word as multisets of cells.
- **Sampling** (`Random`, `Distributions`, `Sampling`).
  - `rand_double` combines three 16-bit draws.
  - `normalize_dist` and the
    cumulative-interval search of `rand_index_from_dist` each come with their meaning as functions
    on weight sequences.
  - The samplers `rand_symbol` and `rand_letter_*` are functions over
    a snapshot of the tables and a stream of draws. The fallback chains are
    written as ordered lists of table rows.
- **Words** (`Words`). `rand_pr_word` writes its letters into the caller's buffer one
  at a time. It is a method proved against the function `Word`, and the shape of
  every word it can produce is proved about that function.
- **Passwords** (`Passwords`). `secpass_pr_sym` is modelled as follows.
  - One pass of its retry loop is the method
    `TryPassword`, proved against the function `Attempt`.
  - The loop itself is `SecpassPrSym`, proved
    against `Secpass`.
  - What the returned password satisfies is proved about those functions.

The draws of `getrandom` are an input `Stream` (call number `k` of `rand_double` gets
`draws(k)`). Every operation takes a draw cursor and returns the cursor after the draws it used.
`log_2` is a parameter of type `real -> real`, and doubles are modelled as reals.

## Model

| member | source | states |
|---|---|---|
| Random.Combined | main.c:84-90 | the 48-bit integer built from three 16-bit draws is below `1 << 48` |
| Random.Unit | main.c:91 | `n / 2^48` lies in [0, 1) |
| Random.ShiftedBound | main.c:87-90 | after `i` draws are shifted in, the integer is below `2^(16 i)`, so no bit is lost from the 64-bit word |
| Random.ShiftLeft16 | main.c:89 | `n << 16` on a 64-bit word clears the low 16 bits and is `n * 2^16` when `n < 2^48` |
| Random.OrLow16 | main.c:89 | or-ing a 16-bit value into cleared low bits keeps the high part and sets the low 16 bits to the value |
| Random.RandDouble | main.c:84-92 | the shifting loop on a 64-bit word returns exactly `Unit(d)`, a value in [0, 1) |
| Distributions.Normalized | main.c:60-71 | with a positive sum, `exists` is set, each new weight times the old sum is the old weight, and the weights sum to 1; otherwise weights and flag are unchanged |
| Distributions.NormalizedCounts | main.c:60-71 | a row of counts without the flag ends up present exactly when its sum is positive, and then it sums to 1 |
| Distributions.NormalizedWellFormed | main.c:67-69 | normalising keeps 26 non-negative weights |
| Distributions.SumScale | main.c:67-69 | dividing every weight by `s` divides the sum by `s` |
| Distributions.SumPositive | main.c:61-65 | non-negative weights have a positive sum exactly when one weight is positive |
| Distributions.Scan | main.c:99-106 | the search from index `i` returns -1 or an index in [i, 26) |
| Distributions.ScanFindsFirst | main.c:99-106 | the search with running sum `acc` returns the first index whose interval (sum, sum + dist[i]] holds `u`, or -1 when none from `i` on does |
| Distributions.IndexOfFirst | main.c:94-107 | the chosen index is the first interval holding `u`, with a positive weight; -1 means no interval holds `u` |
| Distributions.IndexOfUnique | main.c:94-107 | with non-negative weights the chosen index is the unique index whose interval holds `u` |
| Distributions.HitUnique | main.c:101 | no two intervals hold the same `u` |
| Distributions.ZeroDrawMisses | main.c:98-106 | the draw 0 yields -1 |
| Distributions.NormalizedAlwaysHits | main.c:98-106 | in exact arithmetic a distribution summing to 1 yields an index for every `u` in (0, 1] |
| Sampling.Sample | main.c:94-107 | defines `rand_index_from_dist` as a value: -1 and no draw for a missing distribution, else `IndexOf` of the next draw and one draw used; `RandIndexFromDist` is proved to compute it |
| Sampling.Entropy | main.c:73-75 | defines `entropy(p) = -log_2(p)` |
| Sampling.RandIndexFromDist | main.c:94-107 | the loop with a running sum returns -1 without a draw for a missing distribution, else the index `IndexOf` picks for the next draw, and advances the cursor by one |
| Sampling.FromDist | main.c:130-135 | a sampler step writes a letter only when that letter has a positive weight in the row; otherwise it writes nothing and returns 0.0 |
| Sampling.FromDistCases | main.c:130-135 | one row uses a draw exactly when it exists, and writes a letter exactly when it does not miss |
| Sampling.LetterCx | main.c:123-126 | `rand_letter_Cx` always writes a letter in 'a'..'z' and uses one draw |
| Sampling.Letterxc | main.c:128-136 | `rand_letter_xc` writes a letter only with positive weight in `xc[x]`, else returns 0.0 |
| Sampling.LetterXc | main.c:138-145 | `rand_letter_Xc` writes a letter with positive weight in `Xc[x]` or `xc[x]`, else nothing and 0.0 |
| Sampling.Letterxxc | main.c:147-155 | `rand_letter_xxc` writes a letter with positive weight in `xxc[x][y]` or `xc[y]`, else nothing and 0.0 |
| Sampling.LetterxC | main.c:157-164 | `rand_letter_xC` writes a letter with positive weight in `xC[x]` or `xc[x]`, else nothing and 0.0 |
| Sampling.LetterxxC | main.c:166-173 | `rand_letter_xxC` writes a letter with positive weight in `xxC[x][y]`, `xC[y]` or `xc[y]`, else nothing and 0.0 |
| Sampling.XcFallback | main.c:138-145 | `rand_letter_Xc` tries `Xc[x]` and, only when it yields nothing, calls `rand_letter_xc(x)` with the next draw |
| Sampling.xxcFallback | main.c:147-155 | `rand_letter_xxc` tries `xxc[x][y]` and falls back to `rand_letter_xc(y)` |
| Sampling.xCFallback | main.c:157-164 | `rand_letter_xC` tries `xC[x]` and falls back to `rand_letter_xc(x)` |
| Sampling.xxCFallback | main.c:166-173 | `rand_letter_xxC` tries `xxC[x][y]` and falls back to `rand_letter_xC(y)` |
| Sampling.TryChain | main.c:128-173 | a fallback chain writes only a letter that some row of the chain backs with a positive weight; otherwise it writes nothing and returns 0.0 |
| Sampling.ChainNone | main.c:128-173 | a chain writes nothing exactly when every row misses its draw; then it returns 0.0 after one draw per existing row |
| Sampling.ChainSome | main.c:128-173 | a chain that writes a letter took it from the first row that did not miss, with that row's weight positive and its entropy returned |
| Sampling.MissBeforeAll | main.c:128-173 | missing throughout a chain prefix means each row misses the draw it is tried with |
| Sampling.MissStep | main.c:128-173 | a chain misses throughout exactly when its head misses and its tail misses throughout, starting one draw later when the head exists |
| Sampling.DrawForTail | main.c:95-98 | row `j` of a chain is tried one draw later per existing row before it |
| Sampling.TwoStep | main.c:138-164 | a two-row chain is its first row and, on a miss, its second row |
| Sampling.RandSymbol | main.c:116-120 | `rand_symbol` writes a character of the 38-symbol pool, uses one draw and always returns `entropy(1/38)` |
| Sampling.SymbolsInPool | main.c:35 | the pool holds exactly the characters `IsSymbol` describes |
| Sampling.PoolSymbols | main.c:35 | every entry of the pool is a symbol |
| Sampling.NthIndex | main.c:118 | the pool walk returns `symbols[i]` |
| Alphabet.ToLower | main.c:256 | C-locale `tolower` maps upper-case letters to letters and leaves other characters alone |
| Alphabet.ToUpper | main.c:225 | C-locale `toupper` maps letters to upper case and leaves other characters alone |
| Alphabet.LetterOf | main.c:134 | `(char)i + 'a'` is a letter whose table index is `i` |
| Alphabet.Pair | main.c:113-114 | the context `[x][y]` is a row below 676 |
| Tally.TallyOf | main.c:252-281 | defines the counts of a text: its first word's, plus those of the text after the character that ended it; its properties are `TallyUnfold`, `SeparatorSplit`, `OneWord` and `CaseInsensitive` |
| Tally.WordTally | main.c:252-281 | defines the counts of one word; `WordCounts`, `BigramsExact` and `TrigramsExact` state them |
| Tally.WordCounts | main.c:252-281 | a word of fewer than 2 letters adds nothing; a word of n >= 2 adds one `Xc[w0][w1]`, n - 1 `xc`, n - 2 `xxc`, one `xC` for its last pair and one `xxC`, at `[w0][w0][w1]` when n = 2 |
| Tally.BigramsExact | main.c:264-269 | the `xc` counts of a word are exactly its neighbouring pairs |
| Tally.TrigramsExact | main.c:268 | the `xxc` counts of a word are exactly its neighbouring triples |
| Tally.BigramsSize | main.c:264-269 | a word of n >= 1 letters has n - 1 `xc` counts |
| Tally.TrigramsSize | main.c:268 | a word of n >= 2 letters has n - 2 `xxc` counts |
| Tally.SeparatorSplit | main.c:252-281 | any non-letter ends the current word: the text on either side is counted separately |
| Tally.SeparatorsOnly | main.c:252-275 | a run of non-letters adds no count |
| Tally.OneWord | main.c:256-274 | a text of letters only counts as one word, lower-cased |
| Tally.CaseInsensitive | main.c:256 | counting a text and its lower-cased copy gives the same counts |
| Tally.LetterRun | main.c:256 | the first word ends at the first non-letter after `tolower` |
| Tally.FirstWord | main.c:256 | defines the first word as the lower-cased leading run of letters, a word of `LetterRun` letters |
| Tally.TallyUnfold | main.c:252-281 | the text's counts are its first word's, plus those of the text after the separator |
| Tally.Lower | main.c:256 | defines the text as the loop reads it: `tolower` applied to every character, same length |
| Tally.CtxLetters | main.c:253-273 | `x` is set from the first letter, `y` and `x_last` from the second on, each a letter or 0 |
| Tally.LetterStep | main.c:257-273 | one pass of the letter loop moves the context as the word grows and adds that letter's counts |
| Tally.StepTally | main.c:257-273 | defines the counts the loop body makes for one letter in its context; `LetterStep` and `StepLong` state them |
| Tally.NextCtx | main.c:257-273 | defines the context `x`, `y`, `x_last` after one letter; `LetterStep` and `CtxLetters` state how it moves |
| Tally.EndTally | main.c:275-280 | defines the counts made when a word ends; `WordEnd` states them |
| Tally.StepLong | main.c:267-271 | from the third letter on, the loop body counts `xc[y][c]` and `xxc[x][y][c]` |
| Tally.GramsStep | main.c:267-271 | a letter after two or more adds one pair and one triple |
| Tally.WordEnd | main.c:275-280 | the counts at the end of the word complete the word's counts: `xC[x][y]`, and `xxC[x_last][x][y]` when `x_last` is set |
| Tally.PlusAssoc | main.c:252-281 | counts added in either grouping agree |
| Tables.DistTable.Weights | main.c:56 | defines the weights of row `r` as `dist[r][0..26)`, 26 of them |
| Tables.DistTable.Bump | main.c:264 | `dist[r][c]++` adds exactly the one count `(r, c)` to the table |
| Tables.DistTable.Normalize | main.c:60-71 | `normalize_dist` on row `r`: that row becomes `Normalized` of itself and no other row changes |
| Tables.DistTable.NormalizeEvery | main.c:283-291 | every row of the table normalised |
| Tables.DistTable.constructor | main.c:110-114 | a static table starts with all weights 0 and no distribution |
| Tables.AddCounts | main.c:264-278 | defines the `dist[r][c]++` increments as a function: each row gains exactly its own counts, with the flags unchanged |
| Tables.AddRow | main.c:264-278 | defines one row after the increments: its weight for letter `c` grows by the number of `(row, c)` counts |
| Tables.AddCountsPlus | main.c:252-281 | adding counts `a` and then `b` adds `a + b` |
| Tables.AddNothing | main.c:275 | adding no counts changes nothing |
| Tables.NormalizeRows | main.c:283-291 | defines the rows after the normalisation loop: each row replaced by `Normalized` of itself |
| Tables.NormalizedUpTo | main.c:283-291 | normalising rows in order extends the normalised prefix |
| Tables.Gained | main.c:264-278 | tables that each gained their counts hold the old tables plus the text's counts |
| Tables.WithCountsPlus | main.c:252-281 | counting one text and then another is counting both together |
| Tables.WithNothing | main.c:275 | no counts leave the tables unchanged |
| Tables.BlankModel | main.c:110-114 | the zero-initialised tables are well formed |
| Tables.Trained | main.c:246-293 | defines the tables after training: blank tables, plus the text's counts, then every row normalised; `TrainedTables` states their properties |
| Tables.TrainedTables | main.c:246-293 | after training, every row has 26 non-negative weights; a row has a distribution exactly when its context occurred in the text, and it then sums to 1; other rows stay all zero |
| Tables.TrainedTable | main.c:283-291 | the same, for one table and its counts |
| Tables.ReadingLetters | main.c:253-273 | the context the loop holds is letters or 0, and `y` is set only once `x` is |
| Tables.ReadingNext | main.c:256-273 | reading one more letter extends the word and adds that letter's counts |
| Tables.WordThenRest | main.c:256-281 | the word read up to the separator is the first word of the rest of the text; counting goes on after the separator |
| Tables.WordCounted | main.c:256-280 | the counts of the letter loop followed by those of the word's end are the word's counts |
| Tables.LowerNext | main.c:256 | reading one more character extends the lower-cased text read so far |
| Tables.Markov.constructor | main.c:110-114 | the five tables start blank |
| Tables.Markov.Count | main.c:252-281 | the `do ... while` loop adds exactly the counts of the whole text and nothing else |
| Tables.Markov.CountWord | main.c:252-281 | one pass adds the counts of one word; the text from `start` counts as that word plus the rest after the separator |
| Tables.Markov.ReadWord | main.c:256-274 | the letter loop stops at the first non-letter (or at the end of the text), having read the word and made all of its counts except those at its end |
| Tables.Markov.ReadLetter | main.c:256-273 | one pass of the letter loop reads one letter and makes its counts |
| Tables.Markov.CountLetter | main.c:257-273 | the loop body makes exactly the counts of the letter `c` in its context and moves the context |
| Tables.Markov.CountBigram | main.c:263-266 | the second letter bumps `Xc[x][c]` and `xc[x][c]` |
| Tables.Markov.CountTrigram | main.c:267-271 | a later letter bumps `xxc[x][y][c]` and `xc[y][c]` |
| Tables.Markov.EndWord | main.c:275-280 | the end of a word bumps `xC[x][y]`, and `xxC[x_last][x][y]` when `x_last` is set |
| Tables.Markov.CountLastTrigram | main.c:277-279 | `xxC[x_last][x][y]++` after the `xC` bump |
| Tables.Markov.NormalizeAll | main.c:283-291 | `normalize_dist` on every row of every table |
| Tables.Markov.Tabulate | main.c:246-293 | the tables end up as the old tables plus the text's counts, every row normalised |
| Words.TargetLength | main.c:180 | `(int)(u * (maxlen - minlen + 1)) + minlen` lies in [minlen, maxlen] |
| Words.TargetOf | main.c:180 | the target length drawn from the stream lies in [minlen, maxlen] |
| Words.WordShape | main.c:175-207 | with `minlen <= 0` or `maxlen <= minlen`, the result is length 0 and entropy 0 with no draw; otherwise, for the target `len` in [minlen, maxlen]: between 1 and `len` lower-case letters at `buf[0..length)`, at most one letter written past them, each letter after the first with a positive weight in its chain; a length short of `len` only when the sampler tried at that length returned 0.0 (`StoppedShort`); and the entropy is that of the letters plus `entropy(1.0 / (maxlen - minlen + 1))` exactly when the word reached `len` |
| Words.SecondShape | main.c:182-204 | after the first letter, the word has that shape (`Shaped`), stops short of `len` only on a 0.0 from the sampler at that length, and carries the length entropy `bits` exactly when its length is `len` |
| Words.RestShape | main.c:190-203 | the letters from the third on keep the first letters, are drawn from their chains, stop short of `len` only on a 0.0 from the sampler at that length, and add `bits` exactly when the word reaches `len` |
| Words.RestStops | main.c:191-199 | the word from the third letter on is a word at least as long as the start, and a length below `len` means the sampler at that length returned 0.0 with the next draw and the letter it wrote recorded |
| Words.RestBits | main.c:191-205 | with the length entropy `bits` or with 0.0 the same letters, length and next draw result, and the entropies differ by `bits` exactly when the length is `len` |
| Words.SecondFrame | main.c:182-204 | after the first letter: between 1 and `len` letters, at most one past them, each drawn from its chain |
| Words.SecondStops | main.c:185-199 | after the first letter, a length below `len` means the sampler at that length (`rand_letter_Xc` or later ones) returned 0.0 |
| Words.SecondBits | main.c:182-205 | after the first letter, the length entropy `bits` changes only the entropy, and adds it exactly when the length is `len` |
| Words.SecondStep | main.c:182-204 | the four ways the second letter goes: target 1 ends with `bits`; a 0.0 stops at length 1; target 2 ends with `bits` after the second letter; otherwise the rest of the word follows |
| Words.Sampler | main.c:185-198 | defines the sampler tried when the word has `n` letters (`rand_letter_Xc` at 1, `NextLetter` after); it writes a letter or returns 0.0 |
| Words.StopShort | main.c:185-199 | a word stopped by a 0.0 from the sampler at its length is a word with its letters kept, and is `StoppedShort` |
| Words.RestFrame | main.c:191-203 | the lengths of the letters from the third on, and the letters kept |
| Words.RestDrawn | main.c:191-203 | every letter from the third on has a positive weight in its chain |
| Words.RestStep | main.c:191-203 | one step: a 0.0 stops the word, an inner letter continues, the last letter adds the length entropy |
| Words.StepDrawn | main.c:192-199 | the word with the next sampler's letter is still drawn from its chains |
| Words.NextLetter | main.c:192-198 | defines the sampler for the letters after the first two: the `xxc` chain while the word is shorter than `len - 1`, the `xxC` chain for the last; its result writes a letter or returns 0.0 |
| Words.NextLetterDrawn | main.c:192-198 | that letter has a positive weight in its chain |
| Words.WrittenWord | main.c:185-199 | a sampler adds at most one letter after those already written |
| Words.DrawnPrefix | main.c:191-197 | later letters do not change how the earlier ones were drawn |
| Words.Overwrite | main.c:182-202 | defines the buffer after writing `s` from `off`: those positions hold `s`, every other keeps its old character |
| Words.Put | main.c:134 | `*dst = (char)i + 'a'` writes the sampler's letter, if any, after the word |
| Words.Word | main.c:175-207 | defines `rand_pr_word` for a buffer: no draw and length 0 on bad bounds, else the target length, the first letter from `rand_letter_Cx`, then `Second`; its properties are `WordShape` |
| Words.Second | main.c:182-204 | defines the word after its first letter; its properties are `SecondShape` |
| Words.Rest | main.c:190-203 | defines the while-loop over the letters from the third on; its properties are `RestShape` |
| Words.LengthBits | main.c:205 | defines the length entropy `entropy(1.0 / (maxlen - minlen + 1))` |
| Words.RandPrWord | main.c:175-207 | a NULL buffer returns length 0 and entropy 0; otherwise the buffer, length, entropy and draws are exactly those of `Word` |
| Words.WriteSecond | main.c:182-206 | after the first letter, the buffer, length and entropy are those of `Second` |
| Words.WriteRest | main.c:190-203 | the while-loop over the inner letters and the last letter gives the buffer, length and entropy of `Rest` |
| Words.WriteLetter | main.c:192-202 | one letter: stops on 0.0 with the length unchanged, otherwise writes and counts the letter, adding `bits` after the last one |
| Words.PickNext | main.c:192-198 | the sampler call reads the last two letters from the buffer |
| Passwords.Trunc | main.c:220-236 | `(int)x` truncates toward zero |
| Passwords.Separator | main.c:216-231 | the coin appends at most one character to the password |
| Passwords.SeparatorHeads | main.c:216-231 | on a coin below 0.5 the separator is the symbol drawn next |
| Passwords.WithSymbol | main.c:217-229 | the symbol is written at `pass.length`, which grows by one |
| Passwords.WithWord | main.c:224-227 | a word adds between 1 and 6 characters |
| Passwords.PutWord | main.c:225-227 | the word is written from `pass.length`, and the length grows by the word's length |
| Passwords.Full | main.c:221 | defines the guard `buf_size - pass.length - 1 < 7`; `GrowShape` and `NoRoomAttempt` state what it implies |
| Passwords.Naive | main.c:235 | defines the naive estimate `(int)((length - symnum) * log_2(26) + symnum * log_2(strlen(symbols)))` |
| Passwords.Accepts | main.c:235-236 | defines the acceptance test; `AcceptedAttempt` states what an accepted password satisfies |
| Passwords.Grow | main.c:220-232 | the growing loop keeps the length inside the buffer |
| Passwords.Attempt | main.c:213-240 | an attempt leaves its length inside the buffer |
| Passwords.SymbolComposed | main.c:217-230 | appending a symbol keeps the password legal and counts one more symbol |
| Passwords.SeparatorComposed | main.c:228-231 | the optional separator keeps `symnum` equal to the symbols written |
| Passwords.WordComposed | main.c:224-227 | a word keeps the password legal and adds no symbol |
| Passwords.PutWordComposed | main.c:224-227 | writing a word with its first letter made upper case adds no symbol |
| Passwords.SymbolCountAppend | main.c:218-230 | symbols in a concatenation add up |
| Passwords.LettersOnly | main.c:224-225 | letters of either case are not symbols |
| Passwords.GrowShape | main.c:220-232 | the loop ends with room only once `(int)entropy >= min_entropy`; NULL only with the guard tripped and the entropy short; `symnum` always counts the symbols written |
| Passwords.AcceptedAttempt | main.c:233-238 | an accepted attempt has `min_entropy <= (int)entropy <= min_entropy + max_extra_bits`, a naive estimate at least `min_entropy` over the characters written, a terminator inside the buffer, legal characters only, and `symnum` equal to the symbols written |
| Passwords.NoRoomAttempt | main.c:220-223 | an attempt returns NULL exactly when the entropy is still short, and then the guard tripped |
| Passwords.Secpass | main.c:211-241 | whatever the retry loop returns is NULL with length 0 and entropy 0, or a password meeting every promise of an accepted attempt, with the model-based entropy stored |
| Passwords.SecpassStep | main.c:213-240 | a rejected attempt starts over in the same buffer with the next draws; an accepted one or a NULL ends the loop |
| Passwords.AddSeparator | main.c:216-231 | the buffer and counters after the coin and symbol are those of `Separator` |
| Passwords.AddWord | main.c:224-227 | the buffer and counters after `rand_pr_word` and `toupper` are those of `WithWord` |
| Passwords.GrowPassword | main.c:220-232 | the while-loop with its guard ends as `Grow` says |
| Passwords.TryPassword | main.c:214-239 | one pass of the retry loop ends as `Attempt` says, with the terminator written only on acceptance |
| Passwords.SecpassPrSym | main.c:211-241 | the retry loop, cut off after `attempts` passes, returns what `Secpass` says |
| Passwords.Retry | main.c:213-240 | one pass of the retry loop either stops with the password to return or leaves the rest of the run |

## Left out

- `main` (main.c:296-343) is not part of this model. That covers the argument check, `setrlimit`, `sodium_init` and its prompt, `sodium_mlock`/`sodium_munlock`, and the demonstration sweep. They are process set-up, I/O and foreign library calls.
- `fopen`, `fgetc` and `fclose` are not modelled: the file is given as its contents, a `string`. A file that cannot be opened (the `return 0` path) is therefore outside the model. Letters are C-locale 'a'..'z' after `tolower`. The `char`-versus-`EOF` signedness of `c` and bytes of 0x80 and above are not modelled.
- `getrandom` is replaced by the input `Stream`, one `Draw` of three 16-bit values per call of `rand_double`. Its unchecked return value is not modelled.
- Doubles are reals. `log_2` is an uninterpreted parameter, so no fact about logarithms is used. The division in `normalize_dist`, the running sums and the `(int)` casts are exact. The IEEE rounding case that leaves `u` outside every interval is not modelled; it can only lead to the -1 outcome, which is modelled.
- In exact arithmetic, `Distributions.NormalizedAlwaysHits` shows that a normalised row returns -1 only for the draw 0.
- The memory-wiping and swap-locking guarantees of `sensitive` (main.c:77-82) cannot be stated in Dafny. The password buffer is the array passed in.
- Passwords.SecpassPrSym: the `for (;;)` retry loop has no bound in the source. It is cut off after `attempts` passes, and `finished` is false when the cut-off ended it.
- Passwords.SecpassPrSym: requires a buffer of at least 2 characters. With a one-character buffer, the C guard `buf_size - pass.length - 1` wraps around in `size_t` once a first symbol is written, and `rand_pr_word` then writes past the buffer.
- Passwords.Full: the guard is computed on integers. For every buffer the model accepts, `pass.length` stays below `buf_size`, so the `size_t` subtraction cannot wrap there.
- `int` overflow of `pass.length`, `symnum` and the word lengths is not modelled. The buffer bounds keep them small.
- Tables.Markov.NormalizeAll: it normalises each table in turn, not interleaved row by row as main.c:283-291 does. Every row is normalised independently of the others, so the final tables are the same.
- The two-letter tables `f_xxc[26][26]` and `f_xxC[26][26]` are stored as 676 rows, with `[x][y]` at row `26 x + y`. The struct field `exists` is the array `present`, because `exists` is a Dafny keyword.
- The samplers, `rand_pr_word`'s letter chain and one password attempt are specified as functions over a snapshot (`Model`) of the five tables. Only the buffer writes and the loops are methods, since the samplers never change the tables.
