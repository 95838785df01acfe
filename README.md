# lexel: the lexer's matching primitives and string views

lexel is a table-driven tokenizer library in C. This project models two parts of its core:

- **The lexer's cursor and matching primitives.** A lexer (`struct lxl_lexer`) borrows a source buffer, from `start` to `end`, and keeps a cursor into it. The model is the class `Lexel.Lexer`: a `source` sequence, a `current` offset and a status. `Valid()` keeps `current` within `[0, |source|]`.
  - The non-consuming `check_*` operations look only at the input after the cursor. They are therefore the pure functions `Matching.CheckChars`, `Matching.CheckString` and `Matching.CheckStringN` of the lexer's remaining input `Lexer.Rest()`. Because they are functions, they cannot move the cursor.
  - The consuming `match_*` operations are methods of `Lexer`. Each one returns the matching `check_*` result on the input as it was. On success it advances the cursor by exactly the matched length; otherwise nothing changes.
- **The end-of-stream contract of `lxl_lexer_next_token` and `lxl_lexer_is_finished`.** Once the stream is exhausted, `next_token` returns a token of type `LXL_TOKENS_END` (-1), the same token on every later call. The tokenizer dispatch behind `next_token` is a parameter of type `(seq<char>, nat) -> Scan`. It covers whitespace and comment skipping and the string, number, punctuation and word sub-lexers. `Lexel.DispatchFits` states what the model assumes of it:
  - every token it finds lies after the cursor;
  - a token that starts before the end is non-empty;
  - it never produces the end-of-stream type itself, because that type is reserved for the lexer.
- **String views.** `lxl_sv_equal` and `lxl_sv_compare` compare two views by content. `StringView.Equal` and `StringView.Compare` model them. The comparison is lexicographic and normalised to exactly -1, 0 or 1, as the string-view test program's expected outputs require. `StringView.LexLess` is an independent reference definition of the order. The lemmas tie `Compare` to it in both directions, and tie `Compare` to `Equal`.

Characters are Dafny `char`s, and the model orders them by code. This is a modelling choice: the comparison bodies are not part of this model, and the test program uses only ASCII. C strings and pointer pairs become sequences and offsets.

A token (`struct lxl_token`, lexel.h:14-18) is `Lexel.Token`. Its span `[start, end)` is a pair of offsets into the source instead of two pointers. Negative token types are reserved for the lexer. `Lexel.TOKENS_END` is `LXL_TOKENS_END` (-1, lexel.h:28). Only the lexer hands it out: `Lexel.DispatchFits` forbids the dispatch from producing it, and `Lexel.Lexer.NextToken` returns it exactly when the lexer is finished.

`is_finished` becomes true only once `next_token` has returned the end-of-stream token. This follows the lexer's ready/finished status, a field the header's struct does not show.

### A documented choice: `check_string_n` near the end of input

The header does not say what `check_string_n(s, n)` does when fewer than `n` characters remain. The model compares only the characters that remain (`Matching.ClampedLength`) instead of failing. `match_string_n` then consumes those characters.

The consequence is an asymmetry with `check_string`, which fails outright on a pattern longer than the remaining input:
- `Matching.CheckStringNClamped` states the clamped behaviour;
- `Matching.CheckStringNAtEndDiffers` pins the asymmetry: at the end of input, `check_string_n(s, |s|)` holds while `check_string(s)` fails.

With at least `n` characters left, `check_string_n(s, n)` is `check_string` of the first `n` characters of `s` (`Matching.CheckStringNIsCheckStringOfPrefix`), and `match_string_n` advances by exactly `n`.

## Model

| member | source | states |
|---|---|---|
| `StringView.Equal` | test/test_string_view.c:7-10 | two views are equal exactly when they have the same contents |
| `StringView.Compare` | test/test_string_view.c:11-20 | the result is always exactly -1, 0 or 1, never a raw difference |
| `StringView.CompareZeroIffEqual` | test/test_string_view.c:15-16 | `Compare` is 0 exactly for identical views, so it agrees with `Equal` |
| `StringView.CompareNegativeIffLess` | test/test_string_view.c:11-20 | `Compare(a, b)` is -1 exactly when a precedes b lexicographically: a proper prefix of b, or the smaller character at the first difference, whatever the lengths |
| `StringView.ComparePositiveIffGreater` | test/test_string_view.c:13-14 | `Compare(a, b)` is 1 exactly when b precedes a, e.g. an extension against its prefix |
| `StringView.CompareAntisymmetric` | test/test_string_view.c:11-14 | swapping the views negates the result |
| `StringView.CompareTransitive` | test/test_string_view.c:11-20 | the order `Compare` induces is transitive |
| `StringView.StringViewTestCases` | test/test_string_view.c:7-20 | the seven expected outputs of the test program |
| `Matching.CheckChars` | lexel.h:54-55 | true exactly when the cursor is not at the end and the current character is one of `chars`; an empty set never matches |
| `Matching.CheckString` | lexel.h:56-57 | true exactly when `s` is a prefix of the remaining input; a pattern longer than the remaining input never matches |
| `Matching.ClampedLength` | lexel.h:58-60 | the compared length is `n`, or all of the remaining input when less than `n` remains |
| `Matching.CheckStringN` | lexel.h:58-60 | true exactly when the next compared characters equal the first compared characters of `s` |
| `Matching.CheckStringNIsCheckStringOfPrefix` | lexel.h:56-60 | with `n` characters left, `check_string_n(s, n)` is `check_string` of the first `n` characters of `s` |
| `Matching.CheckStringNClamped` | lexel.h:58-60 | with fewer than `n` characters left, `check_string_n` holds exactly when the remaining input is a prefix of `s` |
| `Matching.CheckStringNAtEndDiffers` | lexel.h:56-60 | at the end of input, `check_string_n(s, n)` with `n` the length of `s` holds but `check_string(s)` fails for non-empty `s` |
| `Matching.CheckStringConcat` | lexel.h:56-57 | checking `s + t` is checking `s`, then `t` on the input after `s` |
| `Matching.CheckCharsSingle` | lexel.h:54-57 | checking a one-character set is checking the one-character string |
| `Lexel.Lexer.constructor` | lexel.h:9-12 | a new lexer spans its whole source with the cursor at the start, not finished |
| `Lexel.Lexer.IsFinished` | lexel.h:42-44 | true once `next_token` has handed out `LXL_TOKENS_END`, and then no input is left; with `NextToken`'s `t.tokenType == TOKENS_END <==> status == Finished`, it holds exactly after the call that returned the end-of-stream token |
| `Lexel.Lexer.MatchChars` | lexel.h:62-63 | returns `check_chars` on the input as it was; on true the cursor advances by exactly 1, on false nothing changes; the cursor stays in bounds |
| `Lexel.Lexer.MatchString` | lexel.h:64-65 | returns `check_string(s)`; on true the cursor advances by exactly the length of `s`, on false nothing changes; the cursor stays in bounds |
| `Lexel.Lexer.MatchStringN` | lexel.h:66-68 | returns `check_string_n(s, n)`; on true the cursor advances by the compared length, which is exactly `n` when `n` characters remain; on false nothing changes |
| `Lexel.Lexer.NextToken` | lexel.h:38-44 | a finished lexer returns the `LXL_TOKENS_END` (-1) token again and changes nothing; the returned type is `LXL_TOKENS_END` exactly when the lexer is now finished; tokens follow the cursor in order; each call on an unfinished lexer strictly decreases the work left |
| `Lexel.Drain` | lexel.h:38-44 | calling `next_token` until `is_finished` terminates; the last token is the only `LXL_TOKENS_END` token; an already finished lexer yields no tokens; the tokens lie within the source, after the starting cursor, in order without overlap |

## Left out

- The tokenizer dispatch behind `lxl_lexer_next_token` is a function parameter. Its bodies are not part of this model. This covers whitespace and comment skipping, the string, integer and float sub-lexers, punctuation and keyword tables, and line-ending tokens.
- Error tokens, the pending-error state, the previous-token type, hooks, and the abnormal-finish status are left out. Each belongs to the unmodelled dispatch or is set from outside it.
- Line and column tracking and the token-start offset are left out. The header's lexer has only `start` and `end`.
- `lxl_lexer_from_sv`, `lxl_lexer_reset`, `lxl_lexer__advance`, `lxl_lexer__is_at_end`, `lxl_lexer__skip_whitespace`, `lxl_lexer__check_digit`, `lxl_token_value` and `lxl_error_message` are left out. example.c calls them, but the header declares none of them.
- NUL-terminated C strings are modelled as sequences. `check_chars` is modelled as membership in `chars`. Behaviour tied to a NUL byte in the input, or to a pattern that ends early, is not modelled.
- `Matching.CheckStringN`: requires `n <= |s|`. The header speaks of "the first n characters of the string passed", so the string must have them. What the C code does past the string's terminator is not modelled.
- `Lexel.Lexer.NextToken`: the model assumes the dispatch satisfies `DispatchFits`, including non-empty tokens. An `INVALID_INTEGER` or similar error token that consumes nothing is therefore outside the model.
- `Lexel.Lexer.IsFinished`: becomes true only once `next_token` has returned `LXL_TOKENS_END`. A lexer whose input is used up, or holds no further token, reports unfinished until that call. The header's "no more tokens in the source code" is not promised before it.
- `StringView.Compare`: how non-ASCII bytes are ordered is not settled. It orders characters by code, as an unsigned-byte comparison would. A comparison of signed `char` values would put bytes 0x80 and above before ASCII; that ordering is not modelled.
- The `printf` output of the test program is I/O. Its expected values are the lemma `StringView.StringViewTestCases`.
