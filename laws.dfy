/**
 * What each combinator of parser.hpp does, stated against the interpreter
 * `Run`, and the algebraic laws that follow: fail-fast sequencing without
 * rollback, first-match-wins choice on the original input, and the write
 * discipline of `assign`.
 */
module ParserLaws {
  import opened Parser

  /** Only the targets of `Assign`s inside `p` can change value. */
  lemma {:induction false} RunFrame(p: P, s: string, st: Store, y: SlotId)
    requires Slots(p) <= st.Keys
    requires y in st && y !in Writes(p)
    ensures Run(p, s, st).store[y] == st[y]
    decreases Size(p)
  {
    match p
    case Seq(a, b) =>
      if |s| > 0 {
        RunFrame(a, s, st, y);
        var head := Run(a, s, st);
        if head.result.Matched? {
          RunFrame(b, head.result.rest, head.store, y);
        }
      }
    case Choice(a, b) =>
      RunFrame(a, s, st, y);
      var left := Run(a, s, st);
      if left.result.NoMatch? {
        RunFrame(b, s, left.store, y);
      }
    case Assign(x, q) =>
      RunFrame(q, s, st, y);
    case _ =>
  }

  /** `failure` never matches and writes nothing. */
  lemma FailureSpec(s: string, st: Store)
    ensures Run(Failure, s, st) == Outcome(NoMatch, st)
  {
  }

  /** `success(v)` always matches with `v` and consumes nothing. */
  lemma SuccessSpec(v: char, s: string, st: Store)
    ensures Run(Success(v), s, st) == Outcome(Matched(v, s), st)
  {
  }

  /** `success(x)` of a slot yields the slot's value as it stands when the parser runs. */
  lemma SuccessSlotSpec(x: SlotId, s: string, st: Store)
    requires x in st
    ensures Run(SuccessSlot(x), s, st) == Outcome(Matched(st[x], s), st)
  {
  }

  /** `item()` fails on empty input and otherwise consumes exactly the first character. */
  lemma ItemSpec(s: string, st: Store)
    ensures |s| == 0 ==> Run(Item, s, st) == Outcome(NoMatch, st)
    ensures |s| > 0 ==> Run(Item, s, st) == Outcome(Matched(s[0], s[1..]), st)
    ensures Run(Item, s, st).result.Matched? ==> |Run(Item, s, st).result.rest| == |s| - 1
  {
  }

  /**
   * `sat(f)` matches exactly when the input is non-empty and `f` holds of its
   * first character, consuming that character; its local slot is invisible
   * to the caller, whose slots stay as they were.
   */
  lemma SatSpec(f: char -> bool, s: string, st: Store)
    ensures Run(Sat(f), s, st)
         == Outcome(if |s| > 0 && f(s[0]) then Matched(s[0], s[1..]) else NoMatch, st)
  {
    var local := map[SatLocal := SatLocalInit];
    if |s| > 0 {
      var after := Run(Assign(SatLocal, Item), s, local);
      assert after == Outcome(Matched(s[0], s[1..]), local[SatLocal := s[0]]);
      assert Run(SatBody(f), s, local) == Run(Guard(f, SatLocal), s[1..], after.store);
    }
  }

  /** `character(c)` matches exactly a leading `c`, consuming it. */
  lemma CharacterSpec(c: char, s: string, st: Store)
    ensures Run(Character(c), s, st)
         == Outcome(if |s| > 0 && s[0] == c then Matched(c, s[1..]) else NoMatch, st)
  {
    SatSpec(x => c == x, s, st);
  }

  /** `doer_impl(a, b)` fails on empty input, whatever `a` and `b` are. */
  lemma SeqEmptyInput(a: P, b: P, st: Store)
    requires Slots(a) + Slots(b) <= st.Keys
    ensures Slots(Seq(a, b)) <= st.Keys
    ensures Run(Seq(a, b), [], st) == Outcome(NoMatch, st)
  {
  }

  /** On non-empty input `doer_impl(a, b)` fails when `a` fails, keeping the writes `a` made. */
  lemma SeqHeadFails(a: P, b: P, s: string, st: Store)
    requires Slots(a) + Slots(b) <= st.Keys
    requires |s| > 0 && Run(a, s, st).result.NoMatch?
    ensures Slots(Seq(a, b)) <= st.Keys
    ensures Run(Seq(a, b), s, st) == Outcome(NoMatch, Run(a, s, st).store)
  {
  }

  /**
   * On non-empty input, once `a` matches, `doer_impl(a, b)` is exactly `b`
   * applied to what `a` left, starting from the slots as `a` left them.
   */
  lemma SeqThreads(a: P, b: P, s: string, st: Store)
    requires Slots(a) + Slots(b) <= st.Keys
    requires |s| > 0 && Run(a, s, st).result.Matched?
    ensures Slots(Seq(a, b)) <= st.Keys
    ensures Run(Seq(a, b), s, st) == Run(b, Run(a, s, st).result.rest, Run(a, s, st).store)
  {
  }

  /** A one-parser `doer` is that parser. */
  lemma DoerSingle(p: P, s: string, st: Store)
    requires Slots(p) <= st.Keys
    ensures Run(Doer([p]), s, st) == Run(p, s, st)
  {
  }

  /** A sequence that contains `failure` anywhere never matches. */
  lemma {:induction false} DoerFailFast(ps: seq<P>, i: nat, s: string, st: Store)
    requires i < |ps| && ps[i].Failure?
    requires SlotsOf(ps) <= st.Keys
    ensures Run(Doer(ps), s, st).result == NoMatch
  {
    if |ps| > 1 && i > 0 && |s| > 0 {
      var head := Run(ps[0], s, st);
      if head.result.Matched? {
        DoerFailFast(ps[1..], i - 1, head.result.rest, head.store);
      }
    }
  }

  /** `item()` repeated refers to no slot. */
  lemma {:induction false} ItemsHaveNoSlots(n: nat)
    ensures SlotsOf(Items(n)) == {}
  {
    if n > 0 {
      assert Items(n)[1..] == Items(n - 1);
      ItemsHaveNoSlots(n - 1);
    }
  }

  /** `doer` of `n` items consumes exactly `n` characters and yields the last. */
  lemma {:induction false} DoerItems(n: nat, s: string, st: Store)
    requires n >= 1
    ensures Slots(Doer(Items(n))) == {}
    ensures Run(Doer(Items(n)), s, st)
         == Outcome(if |s| >= n then Matched(s[n - 1], s[n..]) else NoMatch, st)
  {
    ItemsHaveNoSlots(n);
    if n > 1 {
      assert Items(n)[1..] == Items(n - 1);
      assert Items(n)[0] == Item;
      if |s| > 0 {
        DoerItems(n - 1, s[1..], st);
        if |s| >= n {
          assert s[1..][n - 1..] == s[n..];
        }
      }
    }
  }

  /**
   * The empty-input guard of `doer_impl` makes grouping observable: the flat
   * `doer(item, success('x'), success('c'))` fails on "z", where the nested
   * `doer(doer(item, success('x')), success('c'))` matches.
   */
  lemma SeqGroupingMatters()
    ensures Run(Doer([Item, Success('x'), Success('c')]), "z", map[]).result == NoMatch
    ensures Run(Doer([Doer([Item, Success('x')]), Success('c')]), "z", map[]).result
         == Matched('c', "")
  {
    var flat := [Item, Success('x'), Success('c')];
    assert Doer(flat) == Seq(Item, Seq(Success('x'), Success('c')));
    assert Doer([Doer([Item, Success('x')]), Success('c')])
        == Seq(Seq(Item, Success('x')), Success('c'));
    assert "z"[1..] == "";
  }

  /**
   * On non-empty input, whatever `doer_impl(a, b)` returns, a slot that `b`
   * does not target holds what `a` left in it: there is no rollback of `a`'s
   * writes, whether `b` then matches or fails.
   */
  lemma SeqKeepsHeadWrites(a: P, b: P, s: string, st: Store, x: SlotId)
    requires Slots(a) + Slots(b) <= st.Keys
    requires x in st && x !in Writes(b) && |s| > 0
    ensures Slots(Seq(a, b)) <= st.Keys
    ensures Run(Seq(a, b), s, st).store[x] == Run(a, s, st).store[x]
  {
    var head := Run(a, s, st);
    if head.result.Matched? {
      SeqThreads(a, b, s, st);
      RunFrame(b, head.result.rest, head.store, x);
    } else {
      SeqHeadFails(a, b, s, st);
    }
  }

  /** The instance: a capture made by an earlier step survives a later step's failure. */
  lemma SeqNoRollback(x: SlotId, s: string, st: Store)
    requires x in st && |s| > 0
    ensures Slots(Seq(Assign(x, Item), Failure)) == {x}
    ensures Run(Seq(Assign(x, Item), Failure), s, st) == Outcome(NoMatch, st[x := s[0]])
  {
    assert Slots(Assign(x, Item)) == {x} + Slots(Item);
    assert Run(Assign(x, Item), s, st) == Outcome(Matched(s[0], s[1..]), st[x := s[0]]);
    SeqKeepsHeadWrites(Assign(x, Item), Failure, s, st, x);
  }

  /** A slot that no step of a `doer` targets keeps its value. */
  lemma DoerFrame(ps: seq<P>, s: string, st: Store, y: SlotId)
    requires |ps| > 0 && SlotsOf(ps) <= st.Keys
    requires y in st && y !in WritesOf(ps)
    ensures Run(Doer(ps), s, st).store[y] == st[y]
  {
    RunFrame(Doer(ps), s, st, y);
  }

  /**
   * `assign(x, p)`: on failure no match, with only `p`'s own writes (so `x`
   * keeps its value unless `p` writes it); on success `p`'s result unchanged,
   * with `x` set to the parsed value.
   */
  lemma AssignSpec(x: SlotId, p: P, s: string, st: Store)
    requires x in st && Slots(p) <= st.Keys
    ensures Run(p, s, st).result.NoMatch? ==>
      Run(Assign(x, p), s, st) == Outcome(NoMatch, Run(p, s, st).store)
    ensures Run(p, s, st).result.NoMatch? && x !in Writes(p) ==>
      Run(Assign(x, p), s, st).store[x] == st[x]
    ensures Run(p, s, st).result.Matched? ==>
      Run(Assign(x, p), s, st)
      == Outcome(Run(p, s, st).result, Run(p, s, st).store[x := Run(p, s, st).result.value])
  {
    if Run(p, s, st).result.NoMatch? && x !in Writes(p) {
      RunFrame(p, s, st, x);
    }
  }

  /**
   * `a + b`: `a`'s outcome when `a` matches; otherwise `b` on the original
   * input, starting from the slots as `a` left them.
   */
  lemma ChoiceSpec(a: P, b: P, s: string, st: Store)
    requires Slots(a) + Slots(b) <= st.Keys
    ensures Run(a, s, st).result.Matched? ==> Run(Choice(a, b), s, st) == Run(a, s, st)
    ensures Run(a, s, st).result.NoMatch? ==>
      Run(Choice(a, b), s, st) == Run(b, s, Run(a, s, st).store)
  {
  }

  /** Choice is associative, slots included. */
  lemma ChoiceAssociative(a: P, b: P, c: P, s: string, st: Store)
    requires Slots(a) + Slots(b) + Slots(c) <= st.Keys
    ensures Run(Choice(Choice(a, b), c), s, st) == Run(Choice(a, Choice(b, c)), s, st)
  {
  }

  /** `failure` is a left and a right unit of choice. */
  lemma ChoiceFailureUnit(p: P, s: string, st: Store)
    requires Slots(p) <= st.Keys
    ensures Run(Choice(Failure, p), s, st) == Run(p, s, st)
    ensures Run(Choice(p, Failure), s, st) == Run(p, s, st)
  {
  }

  /**
   * A failed left branch leaves its captures behind for the right branch:
   * choice rewinds the input, not the slots.
   */
  lemma ChoiceKeepsFailedCaptures(x: SlotId, s: string, st: Store)
    requires x in st && |s| > 0
    ensures Slots(Choice(Seq(Assign(x, Item), Failure), SuccessSlot(x))) == {x}
    ensures Run(Choice(Seq(Assign(x, Item), Failure), SuccessSlot(x)), s, st)
         == Outcome(Matched(s[0], s), st[x := s[0]])
  {
    SeqNoRollback(x, s, st);
  }
}
