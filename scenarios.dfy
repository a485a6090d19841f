/**
 * The property-based scenarios of test.cpp, each stated for every input
 * string and every initial value of the slots involved.
 */
module ParserScenarios {
  import opened Parser
  import opened ParserLaws

  /** How `doer` nests two parsers. */
  lemma DoerPair(a: P, b: P)
    ensures Doer([a, b]) == Seq(a, b)
  {
    assert [a, b][1..] == [b];
  }

  /** How `doer` nests three parsers. */
  lemma DoerTriple(a: P, b: P, c: P)
    ensures Doer([a, b, c]) == Seq(a, Seq(b, c))
  {
    assert [a, b, c][1..] == [b, c];
    DoerPair(b, c);
  }

  /** `doer(item(), success('c'))` drops the first character and yields 'c'. */
  lemma RemoveFirstChar(s: string, st: Store)
    ensures Slots(Doer([Item, Success('c')])) == {}
    ensures Run(Doer([Item, Success('c')]), s, st)
         == Outcome(if |s| == 0 then NoMatch else Matched('c', s[1..]), st)
  {
    DoerPair(Item, Success('c'));
  }

  /** `doer(assign(x, item()), success(x))` stores the first character in `x` and yields it. */
  lemma GetFirstChar(x: SlotId, s: string, st: Store)
    requires x in st
    ensures Slots(Doer([Assign(x, Item), SuccessSlot(x)])) == {x}
    ensures Run(Doer([Assign(x, Item), SuccessSlot(x)]), s, st)
         == if |s| == 0 then Outcome(NoMatch, st)
            else Outcome(Matched(s[0], s[1..]), st[x := s[0]])
  {
    DoerPair(Assign(x, Item), SuccessSlot(x));
    assert Slots(Assign(x, Item)) == {x} + Slots(Item);
    if |s| > 0 {
      assert Run(Assign(x, Item), s, st) == Outcome(Matched(s[0], s[1..]), st[x := s[0]]);
    }
  }

  /** `failure + item()` behaves as `item()`: the failed left branch is masked. */
  lemma FailAndFollow(s: string, st: Store)
    ensures Run(Choice(Failure, Item), s, st) == Run(Item, s, st)
    ensures |s| > 0 ==> Run(Choice(Failure, Item), s, st) == Outcome(Matched(s[0], s[1..]), st)
  {
    ChoiceFailureUnit(Item, s, st);
  }

  /**
   * `doer(item(), failure, success('x')) + doer(doer(n items), success('c'))`:
   * the right branch re-reads the original input, so the whole consumes
   * exactly `n` characters whenever there are that many.
   */
  lemma RetryOriginalInput(n: nat, s: string, st: Store)
    requires n >= 1
    ensures Slots(Choice(Doer([Item, Failure, Success('x')]), Doer([Doer(Items(n)), Success('c')]))) == {}
    ensures Run(Choice(Doer([Item, Failure, Success('x')]), Doer([Doer(Items(n)), Success('c')])), s, st)
         == Outcome(if |s| >= n then Matched('c', s[n..]) else NoMatch, st)
  {
    var left := Doer([Item, Failure, Success('x')]);
    var right := Doer([Doer(Items(n)), Success('c')]);
    DoerTriple(Item, Failure, Success('x'));
    DoerPair(Doer(Items(n)), Success('c'));
    DoerItems(n, s, st);
    DoerFailFast([Item, Failure, Success('x')], 1, s, st);
    assert Run(left, s, st) == Outcome(NoMatch, st);
    if |s| >= n {
      assert Run(Doer(Items(n)), s, st) == Outcome(Matched(s[n - 1], s[n..]), st);
      SeqThreads(Doer(Items(n)), Success('c'), s, st);
    }
  }

  /**
   * `doer(assign(x, item()), assign(y, item()), success('c'))` stores the first
   * two characters in `x` and then `y`; a capture made before the input ran
   * out is kept.
   */
  lemma MultipleAssigns(x: SlotId, y: SlotId, s: string, st: Store)
    requires x in st && y in st
    ensures Slots(Doer([Assign(x, Item), Assign(y, Item), Success('c')])) == {x, y}
    ensures Run(Doer([Assign(x, Item), Assign(y, Item), Success('c')]), s, st)
         == if |s| >= 2 then Outcome(Matched('c', s[2..]), st[x := s[0]][y := s[1]])
            else if |s| == 1 then Outcome(NoMatch, st[x := s[0]])
            else Outcome(NoMatch, st)
  {
    var tail := Seq(Assign(y, Item), Success('c'));
    DoerTriple(Assign(x, Item), Assign(y, Item), Success('c'));
    assert Slots(Assign(x, Item)) == {x} + Slots(Item);
    assert Slots(Assign(y, Item)) == {y} + Slots(Item);
    if |s| > 0 {
      var st1 := st[x := s[0]];
      assert Run(Assign(x, Item), s, st) == Outcome(Matched(s[0], s[1..]), st1);
      SeqThreads(Assign(x, Item), tail, s, st);
      if |s| > 1 {
        assert Run(Assign(y, Item), s[1..], st1) == Outcome(Matched(s[1], s[2..]), st1[y := s[1]]);
        SeqThreads(Assign(y, Item), Success('c'), s[1..], st1);
        assert s[1..][1..] == s[2..];
      }
    }
  }

  /** The grammar of test.cpp's "test character": '(' then any character into `x` then ')', yielding `x`. */
  function Parenthesised(x: SlotId): (p: P)
    ensures Slots(p) == {x} && Writes(p) == {x}
  {
    var ps := [Character('('), Assign(x, Item), Character(')'), SuccessSlot(x)];
    assert ps[1..] == [Assign(x, Item), Character(')'), SuccessSlot(x)];
    DoerTriple(Assign(x, Item), Character(')'), SuccessSlot(x));
    assert Doer(ps) == Seq(Character('('), Seq(Assign(x, Item), Seq(Character(')'), SuccessSlot(x))));
    assert Slots(Assign(x, Item)) == {x} + Slots(Item);
    Doer(ps)
  }

  /** The tail `doer(character(')'), success(x))` of that grammar. */
  lemma CloseThenSlot(x: SlotId, r: string, st: Store)
    requires x in st
    ensures Slots(Seq(Character(')'), SuccessSlot(x))) == {x}
    ensures Run(Seq(Character(')'), SuccessSlot(x)), r, st)
         == if |r| > 0 && r[0] == ')' then Outcome(Matched(st[x], r[1..]), st)
            else Outcome(NoMatch, st)
  {
    CharacterSpec(')', r, st);
    if |r| > 0 && r[0] == ')' {
      SeqThreads(Character(')'), SuccessSlot(x), r, st);
    } else if |r| > 0 {
      SeqHeadFails(Character(')'), SuccessSlot(x), r, st);
    }
  }

  /** The tail `doer(assign(x, item()), character(')'), success(x))` of that grammar. */
  lemma CaptureThenClose(x: SlotId, r: string, st: Store)
    requires x in st
    ensures Slots(Seq(Assign(x, Item), Seq(Character(')'), SuccessSlot(x)))) == {x}
    ensures Run(Seq(Assign(x, Item), Seq(Character(')'), SuccessSlot(x))), r, st)
         == if |r| >= 2 && r[1] == ')' then Outcome(Matched(r[0], r[2..]), st[x := r[0]])
            else if |r| >= 1 then Outcome(NoMatch, st[x := r[0]])
            else Outcome(NoMatch, st)
  {
    var tail := Seq(Character(')'), SuccessSlot(x));
    assert Slots(Assign(x, Item)) == {x} + Slots(Item);
    CloseThenSlot(x, [], st);
    if |r| > 0 {
      var st1 := st[x := r[0]];
      assert Run(Assign(x, Item), r, st) == Outcome(Matched(r[0], r[1..]), st1);
      SeqThreads(Assign(x, Item), tail, r, st);
      CloseThenSlot(x, r[1..], st1);
      if |r| >= 2 {
        assert r[1..][1..] == r[2..];
      }
    }
  }

  /**
   * `Parenthesised(x)` matches exactly the inputs that start with '(' c ')',
   * yielding `c` and storing it in `x`; once the '(' and a character were
   * read, `x` keeps that character even when the ')' is missing.
   */
  lemma TestCharacter(x: SlotId, s: string, st: Store)
    requires x in st
    ensures Slots(Parenthesised(x)) == {x}
    ensures Run(Parenthesised(x), s, st)
         == if |s| >= 3 && s[0] == '(' && s[2] == ')' then Outcome(Matched(s[1], s[3..]), st[x := s[1]])
            else if |s| >= 2 && s[0] == '(' then Outcome(NoMatch, st[x := s[1]])
            else Outcome(NoMatch, st)
  {
    var tail := Seq(Assign(x, Item), Seq(Character(')'), SuccessSlot(x)));
    var ps := [Character('('), Assign(x, Item), Character(')'), SuccessSlot(x)];
    assert ps[1..] == [Assign(x, Item), Character(')'), SuccessSlot(x)];
    DoerTriple(Assign(x, Item), Character(')'), SuccessSlot(x));
    assert Parenthesised(x) == Seq(Character('('), tail);
    CaptureThenClose(x, [], st);
    CharacterSpec('(', s, st);
    if |s| > 0 && s[0] == '(' {
      SeqThreads(Character('('), tail, s, st);
      CaptureThenClose(x, s[1..], st);
      if |s| >= 3 {
        assert s[1..][2..] == s[3..];
      }
    } else if |s| > 0 {
      SeqHeadFails(Character('('), tail, s, st);
    }
  }

  /** The instance test.cpp checks: on "(i)" followed by anything, 'i' is parsed and stored. */
  lemma TestCharacterExample(x: SlotId, t: string, st: Store)
    requires x in st
    ensures Slots(Parenthesised(x)) == {x}
    ensures Run(Parenthesised(x), "(i)" + t, st) == Outcome(Matched('i', t), st[x := 'i'])
  {
    var s := "(i)" + t;
    TestCharacter(x, s, st);
    assert s[0] == '(' && s[1] == 'i' && s[2] == ')';
    assert s[3..] == t;
  }
}
