/**
 * What the update handler of `Bot` promises: the priority order of its
 * tests, stated once more as a list of rules of which the first that applies
 * wins; the replies for the menu's own buttons, for blank text, for text
 * with and without spaces; and what the sum and the character count are.
 */
module BotProperties {
  import opened Utf16
  import opened DotNet
  import opened Bot
  import Decimal

  /** The tests of the handler's chain, each on its own, without the
      ordering. */
  datatype Rule = StartRule | CountLabelRule | SumLabelRule | BlankRule | SpaceRule | OtherwiseRule

  /** The order in which the handler tries the rules. */
  const Priority: seq<Rule> := [StartRule, CountLabelRule, SumLabelRule, BlankRule, SpaceRule, OtherwiseRule]

  predicate Applies<N>(lib: Library<N>, rule: Rule, text: Text) {
    match rule
    case StartRule => StartsWith(text, StartCommand)
    case CountLabelRule => lib.equalsIgnoreCase(text, CountLabel)
    case SumLabelRule => lib.equalsIgnoreCase(text, SumLabel)
    case BlankRule => lib.IsNullOrWhiteSpace(text)
    case SpaceRule => Contains(text, Space)
    case OtherwiseRule => true
  }

  /** The position of the first rule of `rules` that applies to `text`
      (|rules| if none does). */
  function FirstApplying<N>(lib: Library<N>, rules: seq<Rule>, text: Text): (k: nat)
    ensures k <= |rules|
    ensures forall j :: 0 <= j < k ==> !Applies(lib, rules[j], text)
    ensures k < |rules| ==> Applies(lib, rules[k], text)
  {
    if rules == [] then 0
    else if Applies(lib, rules[0], text) then 0
    else 1 + FirstApplying(lib, rules[1..], text)
  }

  /** The rule whose branch produces a reply. */
  function RuleOf(r: Reply): Rule {
    match r
    case Menu(_) => StartRule
    case CountPrompt(_) => CountLabelRule
    case SumPrompt(_) => SumLabelRule
    case BlankPrompt(_) => BlankRule
    case Sum(_, _) => SpaceRule
    case CharCount(_, _) => OtherwiseRule
  }

  /** Every text message gets exactly one reply, and it is the one of the
      first rule in priority order that applies: `/start` prefix, count
      label, sum label, blank text, a space, anything else. */
  lemma RouteFollowsPriority<N>(lib: Library<N>, text: Text, from: ChatId)
    ensures FirstApplying(lib, Priority, text) < |Priority|
    ensures Priority[FirstApplying(lib, Priority, text)] == RuleOf(Route(lib, text, from))
  {
    var k := FirstApplying(lib, Priority, text);
    var m := match RuleOf(Route(lib, text, from))
      case StartRule => 0
      case CountLabelRule => 1
      case SumLabelRule => 2
      case BlankRule => 3
      case SpaceRule => 4
      case OtherwiseRule => 5;
    assert Priority[m] == RuleOf(Route(lib, text, from));
    assert Applies(lib, Priority[m], text);
    assert forall j :: 0 <= j < m ==> !Applies(lib, Priority[j], text);
    assert Applies(lib, Priority[5], text);
    assert k == m;
  }

  /** The lengths, first characters and spaces of the fixed texts the
      routing compares against. */
  lemma FixedTextFacts()
    ensures |StartCommand| == 6 && StartCommand[0] == 0x2F
    ensures |CountLabel| == 27 && CountLabel[0] == 0x41F
    ensures CountLabel[10] == Space && CountLabel[18] == Space && CountLabel[20] == Space
    ensures |SumLabel| == 21 && SumLabel[0] == 0x412
    ensures SumLabel[9] == Space && SumLabel[15] == Space
  {
    assert InBmp("/start");
    assert InBmp("Подсчитать символы в тексте");
    assert InBmp("Вычислить сумму чисел");
  }

  /** Any text that starts with `/start` gets the main menu, whatever
      follows. */
  lemma StartGetsMenu<N>(lib: Library<N>, rest: Text, from: ChatId)
    ensures Route(lib, StartCommand + rest, from) == Menu(from)
  {
    assert (StartCommand + rest)[..|StartCommand|] == StartCommand;
  }

  /** The menu has the prompt text and two one-button rows, the count label
      above the sum label; pressing either button (sending its label) gets
      that button's prompt, although each label holds spaces. */
  lemma MenuButtonsGetPrompts<N>(lib: Library<N>, from: ChatId)
    requires lib.Valid()
    ensures Send(lib, Route(lib, StartCommand, from)).body == MenuText
    ensures Send(lib, Route(lib, StartCommand, from)).keyboard
      == Some(Keyboard([[CountLabel], [SumLabel]], true))
    ensures Route(lib, CountLabel, from) == CountPrompt(from)
    ensures Route(lib, SumLabel, from) == SumPrompt(from)
  {
    FixedTextFacts();
    StartGetsMenu(lib, [], from);
    assert StartCommand + [] == StartCommand;
    assert !StartsWith(CountLabel, StartCommand) by {
      assert CountLabel[..6][0] != StartCommand[0];
    }
    assert !StartsWith(SumLabel, StartCommand) by {
      assert SumLabel[..6][0] != StartCommand[0];
    }
  }

  /** Empty or white-space-only text that is not `/start` and no label
      (none of those is blank) gets the prompt to enter text. */
  lemma BlankGetsPrompt<N>(lib: Library<N>, text: Text, from: ChatId)
    requires lib.Valid()
    requires lib.IsNullOrWhiteSpace(text)
    ensures Route(lib, text, from) == BlankPrompt(from)
    ensures Send(lib, Route(lib, text, from)).body == BlankPromptText
  {
    FixedTextFacts();
    if text != [] {
      assert lib.isWhiteSpace(text[0]);
      assert !StartsWith(text, StartCommand) by {
        if |StartCommand| <= |text| {
          assert text[..6][0] == text[0];
          assert !lib.isWhiteSpace(StartCommand[0]);
        }
      }
      assert !lib.equalsIgnoreCase(text, CountLabel) by {
        assert !lib.isWhiteSpace(CountLabel[0]);
      }
      assert !lib.equalsIgnoreCase(text, SumLabel) by {
        assert !lib.isWhiteSpace(SumLabel[0]);
      }
    }
  }

  /** A label matched ignoring case holds a space wherever the label does:
      at 10, 18 and 20 for the count label, at 9 and 15 for the sum label. */
  lemma LabelHoldsSpace<N>(lib: Library<N>, text: Text)
    requires lib.Valid()
    requires lib.equalsIgnoreCase(text, CountLabel) || lib.equalsIgnoreCase(text, SumLabel)
    ensures Contains(text, Space)
    ensures lib.equalsIgnoreCase(text, CountLabel) ==>
      |text| == 27 && text[10] == Space && text[18] == Space && text[20] == Space
    ensures lib.equalsIgnoreCase(text, SumLabel) ==>
      |text| == 21 && text[9] == Space && text[15] == Space
  {
    FixedTextFacts();
    if lib.equalsIgnoreCase(text, CountLabel) {
      assert lib.equalsIgnoreCase(CountLabel, text);
      assert text[10] == Space && text[18] == Space && text[20] == Space;
    }
    if lib.equalsIgnoreCase(text, SumLabel) {
      assert lib.equalsIgnoreCase(SumLabel, text);
      assert text[9] == Space && text[15] == Space;
    }
  }

  /** Text that is not blank, does not start with `/start` and holds no
      space gets its length in UTF-16 code units, even when it is a number:
      which reply it gets never depends on parsing. */
  lemma NoSpaceGetsCount<N>(lib: Library<N>, text: Text, from: ChatId)
    requires lib.Valid()
    requires !lib.IsNullOrWhiteSpace(text) && !StartsWith(text, StartCommand)
    requires !Contains(text, Space)
    ensures Route(lib, text, from) == CharCount(from, text)
  {
    if lib.equalsIgnoreCase(text, CountLabel) || lib.equalsIgnoreCase(text, SumLabel) {
      LabelHoldsSpace(lib, text);
    }
  }

  /** The single number "42" gets "В вашем сообщении 2 символов.", not a
      sum. */
  lemma NumberGetsCount<N>(lib: Library<N>, from: ChatId)
    requires lib.Valid()
    ensures Route(lib, Units("42"), from) == CharCount(from, Units("42"))
    ensures Send(lib, Route(lib, Units("42"), from)).body == CountBodyStart + Units("2") + CountBodyEnd
  {
    var t := Units("42");
    assert InBmp("42") && InBmp("2");
    assert !lib.isWhiteSpace(t[0]);
    NoSpaceGetsCount(lib, t, from);
    assert Decimal.Render(2) == Units("2");
  }

  /** Without a space the reply is the same whatever `double.TryParse`,
      addition and number rendering do. */
  lemma NoSpaceIgnoresNumbers<N>(lib: Library<N>, other: Library<N>, text: Text, from: ChatId)
    requires other.equalsIgnoreCase == lib.equalsIgnoreCase
    requires other.isWhiteSpace == lib.isWhiteSpace
    requires !Contains(text, Space)
    ensures Route(lib, text, from) == Route(other, text, from)
    ensures Send(lib, Route(lib, text, from)) == Send(other, Route(other, text, from))
  {
    assert lib.IsNullOrWhiteSpace(text) == other.IsNullOrWhiteSpace(text);
  }

  /** Text that is not blank, not `/start`, no label, and holds a space gets
      the sum of its space-separated tokens, never the character count.
      There is one token more than there are spaces, empty tokens included,
      and joining the tokens with spaces gives back the text. */
  lemma SpaceGetsSum<N>(lib: Library<N>, text: Text, from: ChatId)
    requires !lib.IsNullOrWhiteSpace(text) && !StartsWith(text, StartCommand)
    requires !lib.equalsIgnoreCase(text, CountLabel) && !lib.equalsIgnoreCase(text, SumLabel)
    requires Contains(text, Space)
    ensures Route(lib, text, from) == Sum(from, text)
    ensures Send(lib, Route(lib, text, from)).body
      == SumBodyStart + lib.format(Total(lib, Values(lib, Split(text, Space))))
    ensures |Split(text, Space)| == Occurrences(text, Space) + 1 >= 2
    ensures Join(Split(text, Space), Space) == text
  {
    JoinSplit(text, Space);
  }

  /** The sum of two values is (0 + a) + b. */
  lemma TotalOfTwo<N>(lib: Library<N>, a: N, b: N)
    ensures Total(lib, [a, b]) == lib.add(lib.add(lib.zero, a), b)
  {
    var vs := [a, b];
    assert vs[..1] == [a] && [a][..0] == [];
    assert Total(lib, [a]) == lib.add(lib.zero, a);
    assert Total(lib, vs) == lib.add(Total(lib, [a]), b);
  }

  /** In `a + " " + b` with `a` and `b` free of spaces, the one space is at
      `|a|`. */
  lemma OneSpace(a: Text, b: Text)
    requires !Contains(a, Space) && !Contains(b, Space)
    ensures forall j :: 0 <= j < |a + [Space] + b| && (a + [Space] + b)[j] == Space ==> j == |a|
  {
    var text := a + [Space] + b;
    assert forall j :: 0 <= j < |a| ==> text[j] == a[j];
    assert forall j :: |a| < j < |text| ==> text[j] == b[j - |a| - 1];
  }

  /** Two tokens without spaces joined by one space, when the text is not
      blank and does not start with `/start`, get the sum of the two tokens'
      values (0 for a token that does not parse), not a character count:
      such text holds one space and so can equal no label, each of which
      holds at least two. */
  lemma TwoTokensGetSum<N>(lib: Library<N>, a: Text, b: Text, from: ChatId)
    requires lib.Valid()
    requires !Contains(a, Space) && !Contains(b, Space)
    requires !lib.IsNullOrWhiteSpace(a + [Space] + b) && !StartsWith(a + [Space] + b, StartCommand)
    ensures Route(lib, a + [Space] + b, from) == Sum(from, a + [Space] + b)
    ensures Send(lib, Route(lib, a + [Space] + b, from)).body
      == SumBodyStart + lib.format(lib.add(lib.add(lib.zero, ValueOrZero(lib, a)), ValueOrZero(lib, b)))
  {
    var text := a + [Space] + b;
    assert Split(text, Space) == [a, b] by {
      assert text == Join([a, b], Space);
      SplitJoin([a, b], Space);
    }
    assert text[|a|] == Space;
    assert !lib.equalsIgnoreCase(text, CountLabel) && !lib.equalsIgnoreCase(text, SumLabel) by {
      if lib.equalsIgnoreCase(text, CountLabel) || lib.equalsIgnoreCase(text, SumLabel) {
        LabelHoldsSpace(lib, text);
        OneSpace(a, b);
        assert false;
      }
    }
    var vs := Values(lib, [a, b]);
    assert vs == [ValueOrZero(lib, a), ValueOrZero(lib, b)];
    TotalOfTwo(lib, vs[0], vs[1]);
  }

  /** "3 four" gets a sum, not a character count: (0 + 3's value) + four's
      value, and "four", when it does not parse, counts as 0. */
  lemma MixedTokensGetSum<N>(lib: Library<N>, from: ChatId)
    requires lib.Valid()
    ensures var three, four := Units("3"), Units("four");
      var reply := Route(lib, three + [Space] + four, from);
      && reply == Sum(from, three + [Space] + four)
      && Send(lib, reply).body
        == SumBodyStart + lib.format(lib.add(lib.add(lib.zero, ValueOrZero(lib, three)), ValueOrZero(lib, four)))
      && (lib.tryParse(four).None? ==>
          Send(lib, reply).body == SumBodyStart + lib.format(lib.add(lib.add(lib.zero, ValueOrZero(lib, three)), lib.zero)))
  {
    var three, four := Units("3"), Units("four");
    var text := three + [Space] + four;
    assert InBmp("3") && InBmp("four");
    assert text[0] == 0x33 && !lib.isWhiteSpace(text[0]);
    FixedTextFacts();
    assert !StartsWith(text, StartCommand) by {
      assert text[..6][0] != StartCommand[0];
    }
    TwoTokensGetSum(lib, three, four, from);
  }
}
