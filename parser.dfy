/**
 * The parser-combinator algebra of parser.hpp as a deep embedding.
 *
 * A parser maps an input string to either "no match" or a parsed character
 * together with the input it left unconsumed.  Combinators that capture a
 * value (`assign`) write it into a slot owned by the caller; the model makes
 * those slots explicit as a store that the interpreter `Run` threads through
 * every step, in the order in which the C++ lambdas execute.
 */
module Parser {

  /** A caller-owned `char` variable that `assign` writes and `success` may read. */
  type SlotId = nat

  /** The values of the caller's slots.  Every slot a parser mentions must exist. */
  type Store = map<SlotId, char>

  /** `std::optional<std::pair<char, std::string>>`: no match, or the value and the rest. */
  datatype ParseResult = NoMatch | Matched(value: char, rest: string)

  /** The parse result together with the slots as they stand after the parse. */
  datatype Outcome = Outcome(result: ParseResult, store: Store)

  /**
   * The parsers that can be built with parser.hpp.
   * - `Success(c)` is `success` of a value that never changes.
   * - `SuccessSlot(x)` is `success(x)` of a slot: it captures the slot by
   *   reference, so it yields the slot's value at parse time.
   * - `Guard(f, x)` is the lambda that `sat` builds around its local slot:
   *   it consumes nothing and succeeds with the slot's value when `f` holds.
   * - `Seq(a, b)` is `doer_impl(a, b)`; `Choice(a, b)` is `a + b`.
   */
  datatype P =
    | Failure
    | Success(c: char)
    | SuccessSlot(slot: SlotId)
    | Item
    | Sat(pred: char -> bool)
    | Guard(test: char -> bool, local: SlotId)
    | Seq(first: P, second: P)
    | Choice(left: P, right: P)
    | Assign(target: SlotId, inner: P)

  /** `r` is what is left of `s` after dropping some prefix. */
  predicate IsSuffix(r: string, s: string)
  {
    |r| <= |s| && r == s[|s| - |r|..]
  }

  /** A measure under which `Sat` is larger than the parser it expands to. */
  function Size(p: P): nat
  {
    match p
    case Sat(_) => 5
    case Seq(a, b) => 1 + Size(a) + Size(b)
    case Choice(a, b) => 1 + Size(a) + Size(b)
    case Assign(_, q) => 1 + Size(q)
    case _ => 1
  }

  /** The caller's slots that running `p` may write: the targets of its `Assign`s. */
  function Writes(p: P): set<SlotId>
  {
    match p
    case Seq(a, b) => Writes(a) + Writes(b)
    case Choice(a, b) => Writes(a) + Writes(b)
    case Assign(x, q) => {x} + Writes(q)
    case _ => {}
  }

  /** Every caller slot that `p` refers to, for reading or for writing. */
  function Slots(p: P): (r: set<SlotId>)
    ensures Writes(p) <= r
  {
    match p
    case SuccessSlot(x) => {x}
    case Guard(_, x) => {x}
    case Seq(a, b) => Slots(a) + Slots(b)
    case Choice(a, b) => Slots(a) + Slots(b)
    case Assign(x, q) => {x} + Slots(q)
    case _ => {}
  }

  /** The local `char x` that `sat` declares; it lives in a store of its own. */
  const SatLocal: SlotId := 0

  /** Stands for the indeterminate initial value of that local. */
  const SatLocalInit: char := '\0'

  /** What `sat(f)` runs on each call: `doer(assign(x, item()), <test of f on x>)`. */
  function SatBody(f: char -> bool): (r: P)
    ensures Size(r) < Size(Sat(f))
    ensures Slots(r) == {SatLocal}
  {
    Seq(Assign(SatLocal, Item), Guard(f, SatLocal))
  }

  /**
   * Applies a parser to an input, threading the caller's slots.  Whatever the
   * parser, the slots that exist stay the same: `Assign` only overwrites a
   * slot the caller owns.  RunSuffix below adds that a match leaves a suffix
   * of the input, and ParserLaws.RunFrame that only `Assign` targets change.
   */
  function Run(p: P, s: string, st: Store): (out: Outcome)
    requires Slots(p) <= st.Keys
    ensures out.store.Keys == st.Keys
    decreases Size(p)
  {
    match p
    case Failure => Outcome(NoMatch, st)
    case Success(c) => Outcome(Matched(c, s), st)
    case SuccessSlot(x) => Outcome(Matched(st[x], s), st)
    case Item =>
      if |s| == 0 then Outcome(NoMatch, st) else Outcome(Matched(s[0], s[1..]), st)
    case Sat(f) =>
      // `sat`'s own `char x` is a fresh local on every call: run its body
      // against a store holding only that local, then drop the local
      var local := Run(SatBody(f), s, map[SatLocal := SatLocalInit]);
      Outcome(local.result, st)
    case Guard(f, x) =>
      if f(st[x]) then Outcome(Matched(st[x], s), st) else Outcome(NoMatch, st)
    case Seq(a, b) =>
      if |s| == 0 then Outcome(NoMatch, st)
      else
        var head := Run(a, s, st);
        if head.result.NoMatch? then Outcome(NoMatch, head.store)
        else Run(b, head.result.rest, head.store)
    case Choice(a, b) =>
      var left := Run(a, s, st);
      if left.result.NoMatch? then Run(b, s, left.store) else left
    case Assign(x, q) =>
      var inner := Run(q, s, st);
      if inner.result.NoMatch? then Outcome(NoMatch, inner.store)
      else Outcome(inner.result, inner.store[x := inner.result.value])
  }

  /** The slots of a list of parsers, taken together. */
  function SlotsOf(ps: seq<P>): set<SlotId>
  {
    if |ps| == 0 then {} else Slots(ps[0]) + SlotsOf(ps[1..])
  }

  /** The slots a list of parsers may write, taken together. */
  function WritesOf(ps: seq<P>): set<SlotId>
  {
    if |ps| == 0 then {} else Writes(ps[0]) + WritesOf(ps[1..])
  }

  /**
   * `doer(p1, ..., pn)`: the right fold of `doer_impl`, so a single parser is
   * returned as it is.  A sequence refers to exactly the slots of its steps.
   */
  function Doer(ps: seq<P>): (r: P)
    requires |ps| > 0
    ensures Slots(r) == SlotsOf(ps)
    ensures Writes(r) == WritesOf(ps)
  {
    if |ps| == 1 then ps[0] else Seq(ps[0], Doer(ps[1..]))
  }

  /**
   * `character(c)`: `sat` with the test "equals c".  Like every `sat`, it
   * keeps its capture in its own local and touches none of the caller's slots.
   */
  function Character(c: char): (p: P)
    ensures p.Sat? && Slots(p) == {} && Writes(p) == {}
  {
    Sat(x => c == x)
  }

  /** `n` copies of `item()`, as chained by `doer` in a sequence. */
  function Items(n: nat): (ps: seq<P>)
    ensures |ps| == n
    ensures forall i :: 0 <= i < n ==> ps[i].Item?
  {
    seq(n, _ => Item)
  }

  /** Dropping a prefix of a suffix leaves a suffix. */
  lemma SuffixTransitive(r: string, m: string, s: string)
    requires IsSuffix(r, m) && IsSuffix(m, s)
    ensures IsSuffix(r, s)
  {
    assert s[|s| - |m|..][|m| - |r|..] == s[|s| - |r|..];
  }

  /** Every parser consumes input from the front only: a match leaves a suffix of the input. */
  lemma {:induction false} RunSuffix(p: P, s: string, st: Store)
    requires Slots(p) <= st.Keys
    ensures Run(p, s, st).result.Matched? ==> IsSuffix(Run(p, s, st).result.rest, s)
    decreases Size(p)
  {
    match p
    case Sat(f) =>
      RunSuffix(SatBody(f), s, map[SatLocal := SatLocalInit]);
    case Seq(a, b) =>
      if |s| > 0 {
        RunSuffix(a, s, st);
        var head := Run(a, s, st);
        if head.result.Matched? {
          RunSuffix(b, head.result.rest, head.store);
          var tail := Run(b, head.result.rest, head.store);
          if tail.result.Matched? {
            SuffixTransitive(tail.result.rest, head.result.rest, s);
          }
        }
      }
    case Choice(a, b) =>
      RunSuffix(a, s, st);
      var left := Run(a, s, st);
      if left.result.NoMatch? {
        RunSuffix(b, s, left.store);
      }
    case Assign(x, q) =>
      RunSuffix(q, s, st);
    case _ =>
  }

  /** `parse(p, input)`: one application of `p`, its result returned unchanged. */
  function Parse(p: P, input: string, st: Store): (out: Outcome)
    requires Slots(p) <= st.Keys
    ensures out == Run(p, input, st)
    ensures out.store.Keys == st.Keys
    ensures out.result.Matched? ==> IsSuffix(out.result.rest, input)
  {
    RunSuffix(p, input, st);
    Run(p, input, st)
  }
}
