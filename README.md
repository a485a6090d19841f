# Parser combinators with capture slots

A model of a small parser-combinator library. A parser maps an input string to
either "no match" or a parsed character together with the input it has not
consumed. The building blocks are:

- the primitives `failure`, `success` and `item`;
- `sat` and `character`, which take one character when a test holds;
- `doer`, fail-fast sequencing, built as a right fold of the binary `doer_impl`;
- `+`, ordered choice that backtracks to the original input;
- `assign`, which also writes the parsed value into a variable owned by the caller.

The model is a deep embedding. The datatype `Parser.P` has one constructor per
parser form. The interpreter `Parser.Run` applies a parser to an input. The
C++ code captures the caller's `char` variables by reference; the model makes
them explicit as a store (`map<SlotId, char>`). `Run` threads that store
through every step in the order the lambdas execute. `success(x)` of such a
variable reads the slot at parse time (`SuccessSlot`). `success` of a constant
is `Success`.

`sat(f)` is modelled the way the source builds it:
`doer(assign(x, item()), <test f on x>)` over a local `char x` that is fresh on
every call. `Run` evaluates that body (`SatBody`) against a store that holds
only the local, then drops it. `Guard` is the test lambda. `character(c)` is
`sat` with the test "equals `c`".

Files:

- `parser.dfy` (module `Parser`): data model, interpreter, `Doer`, `Character`,
  `Parse`, and the suffix property of every parser.
- `laws.dfy` (module `ParserLaws`): what each combinator does, and the laws
  that follow from it.
- `scenarios.dfy` (module `ParserScenarios`): the property-based scenarios of
  `test.cpp`, stated for every input and every initial slot value.

Behaviour worth knowing, proved here:

- `doer_impl` fails on empty input before it runs either part. So grouping
  is observable. `doer(item, success('x'), success('c'))` fails on `"z"`, but
  `doer(doer(item, success('x')), success('c'))` matches
  (`SeqGroupingMatters`).
- Sequencing never rolls back captures (`SeqKeepsHeadWrites`, with
  `SeqNoRollback` as an instance).
- Choice rewinds the input but not the slots. A failed left branch's captures
  are visible to the right branch (`ChoiceKeepsFailedCaptures`).
- Choice is still associative, slots included (`ChoiceAssociative`).

## Model

| member | source | states |
|---|---|---|
| `Parser.Run` | parser.hpp:8-128 | applying any parser keeps the set of caller slots; a slot is only ever overwritten, never created or dropped |
| `Parser.RunSuffix` | parser.hpp:18-126 | whatever the parser, a match's remaining input is a suffix of the input it was given |
| `Parser.SatBody` | parser.hpp:91-98 | the parser `sat` runs on each call refers to its own local slot only |
| `Parser.Doer` | parser.hpp:47-63 | the right fold of `doer_impl` over a non-empty list refers to, and may write, exactly the slots of its steps |
| `Parser.Character` | parser.hpp:102-110 | `character(c)` is a `sat` and touches none of the caller's slots (its behaviour is `ParserLaws.CharacterSpec`) |
| `Parser.Items` | test.cpp:46 | the `n` steps of `doer(item(), ..., item())` are all `item()` |
| `Parser.Parse` | parser.hpp:113-116 | `parse` returns the parser's own outcome unchanged; the rest is a suffix of the input and the slots keep their keys |
| `ParserLaws.RunFrame` | parser.hpp:65-75 | a slot that no `assign` inside the parser targets keeps its value |
| `ParserLaws.FailureSpec` | parser.hpp:10-13 | `failure` never matches and writes nothing |
| `ParserLaws.SuccessSpec` | parser.hpp:15-20 | `success(v)` matches with `v` and consumes nothing |
| `ParserLaws.SuccessSlotSpec` | parser.hpp:15-20 | `success(x)` of a variable yields its value at parse time and consumes nothing |
| `ParserLaws.ItemSpec` | parser.hpp:77-86 | `item` fails on empty input; otherwise it yields the first character and consumes exactly one |
| `ParserLaws.SatSpec` | parser.hpp:88-100 | `sat(f)` matches iff the input is non-empty and `f` holds of its first character; it then yields that character and consumes it; the caller's slots are untouched |
| `ParserLaws.CharacterSpec` | parser.hpp:102-110 | `character(c)` matches iff the input starts with `c`, consuming it |
| `ParserLaws.SeqEmptyInput` | parser.hpp:28-33 | `doer_impl(a, b)` fails on empty input whatever `a` and `b` are, writing nothing |
| `ParserLaws.SeqHeadFails` | parser.hpp:35-39 | on non-empty input, `doer_impl(a, b)` fails when `a` fails and keeps `a`'s writes |
| `ParserLaws.SeqThreads` | parser.hpp:41-43 | once `a` matches on non-empty input, `doer_impl(a, b)` is exactly `b` on `a`'s remainder, from `a`'s slots |
| `ParserLaws.DoerSingle` | parser.hpp:47-50 | `doer` of one parser behaves as that parser |
| `ParserLaws.DoerFailFast` | parser.hpp:47-63 | a `doer` with `failure` at any position never matches |
| `ParserLaws.ItemsHaveNoSlots` | parser.hpp:77-86 | a run of `item`s refers to no slot |
| `ParserLaws.DoerItems` | parser.hpp:47-63 | `doer` of `n >= 1` items matches iff at least `n` characters remain; it yields the `n`-th and consumes exactly `n` |
| `ParserLaws.SeqGroupingMatters` | parser.hpp:28-56 | because of the empty-input guard, the flat and the nested grouping of the same three steps differ on `"z"` |
| `ParserLaws.SeqNoRollback` | parser.hpp:35-41 | a capture made by an earlier step survives a later step's failure |
| `ParserLaws.SeqKeepsHeadWrites` | parser.hpp:35-43 | on non-empty input, a slot the second step does not target ends as the first step left it, whether the second step matches or fails |
| `ParserLaws.DoerFrame` | parser.hpp:47-63 | a slot that no step of a `doer` targets keeps its value |
| `ParserLaws.AssignSpec` | parser.hpp:65-75 | `assign(x, p)` fails with only `p`'s own writes, so `x` is unchanged unless `p` writes it; on a match it returns `p`'s result and sets `x` to the parsed value |
| `ParserLaws.ChoiceSpec` | parser.hpp:118-128 | `a + b` is `a`'s outcome when `a` matches; otherwise it is `b` on the original input, from the slots `a` left |
| `ParserLaws.ChoiceAssociative` | parser.hpp:118-128 | `(a + b) + c` and `a + (b + c)` have the same outcome, slots included |
| `ParserLaws.ChoiceFailureUnit` | parser.hpp:118-128 | `failure + p` and `p + failure` both behave as `p` |
| `ParserLaws.ChoiceKeepsFailedCaptures` | parser.hpp:118-128 | a failed left branch's capture is visible to the right branch, which re-reads the original input |
| `ParserScenarios.DoerPair` | parser.hpp:52-56 | `doer(a, b)` is `doer_impl(a, b)` |
| `ParserScenarios.DoerTriple` | parser.hpp:52-56 | `doer(a, b, c)` nests to the right: `doer_impl(a, doer_impl(b, c))` |
| `ParserScenarios.RemoveFirstChar` | test.cpp:5-19 | `doer(item(), success('c'))` fails on empty input and otherwise yields `'c'` with the first character consumed |
| `ParserScenarios.GetFirstChar` | test.cpp:20-30 | `doer(assign(x, item()), success(x))` stores the first character in `x` and yields it |
| `ParserScenarios.FailAndFollow` | test.cpp:31-39 | `failure + item()` behaves as `item()` on every input |
| `ParserScenarios.RetryOriginalInput` | test.cpp:40-56 | the right branch after a partly-consuming failed left branch consumes exactly `n` characters of the original input, for every `n >= 1` |
| `ParserScenarios.MultipleAssigns` | test.cpp:57-74 | two captures store the first and second characters in order; a capture made before the input ran out is kept |
| `ParserScenarios.Parenthesised` | test.cpp:79-84 | the test's grammar refers to, and writes, only its capture variable `x` |
| `ParserScenarios.CloseThenSlot` | test.cpp:82-83 | `doer(character(')'), success(x))` matches iff the input starts with `)`, yielding `x`'s current value |
| `ParserScenarios.CaptureThenClose` | test.cpp:81-83 | `doer(assign(x, item()), character(')'), success(x))` matches iff the second character is `)`, yielding and storing the first |
| `ParserScenarios.TestCharacter` | test.cpp:75-90 | the `'(' x ')'` grammar matches exactly inputs starting with `(`, any character, `)`; it yields that character and stores it; after `(` and a character it keeps the capture even when `)` is missing |
| `ParserScenarios.TestCharacterExample` | test.cpp:75-90 | on `"(i)"` followed by any `t` the grammar yields `'i'`, stores `'i'` and leaves `t` |

## Left out

- `y_combinator` and `recursiveCombinator` (used at test.cpp:97 and
  test.cpp:106) are not defined in parser.hpp. Recursion is not modelled, and
  neither is the "test parens" scenario.
- `main.cpp`: a demo program that prints to standard output. It is not part of this model.
- The rapidcheck harness (random generation, `RC_PRE`, `RC_ASSERT`). Its
  scenarios are lemmas quantified over every input.
  The "get 1 char, fail and get 5 chars" test uses inputs of 5 to 99 copies
  of `'a'` (`inRange` excludes its upper bound). `RetryOriginalInput` covers
  every input and every `n >= 1`.
- Value types other than `char`. Every parser here yields a `char`, and so
  does `parse`'s result type.
- The compile-time type machinery (`final_type`, `enable_if`, `static_assert`).
  A zero-parser `doer` does not compile; `Doer` requires a non-empty list.
- Dangling references. `success('c')` captures a temporary by reference, and
  `assign`, `sat` and `character` capture `parser`, `f` and `c` by reference.
  The model gives each the intended value semantics.
- `std::function` itself. Predicates are total Dafny functions `char -> bool`.
- Uninitialised reads. `sat`'s local `char x` starts as `'\0'` in the model.
  `SatSpec` shows that this value is never observed. Caller slots start with
  arbitrary values. Every lemma quantifies over the initial store, except
  `SeqGroupingMatters`, a counterexample on the input `"z"` and the empty store.
- Purity: calling the same parser twice on the same input and slots gives the
  same outcome. This holds by construction, since `Run` is a function, so no
  lemma states it.
- In-place writes: `parse` returns only the result; the slots change where
  they live. `Parse` returns the result together with the final slots.
