/**
 * The update handler of UtilityBot (class `Bot`): for every incoming text
 * message it picks one reply by a fixed chain of tests and addresses it to
 * the sender; every other update gets no reply. The replies are the main
 * menu, two prompts for the menu's buttons, a prompt for blank text, the
 * character count of a text without spaces and the sum of the numbers in a
 * text with spaces.
 *
 * The handler keeps no state: every operation here is a function of the
 * update (and of the library's behaviour), so equal updates get equal
 * replies.
 */
module Bot {
  import opened Utf16
  import opened DotNet
  import Decimal

  /** A Telegram user id (a `long`). */
  newtype ChatId = x: int | -0x8000_0000_0000_0000 <= x < 0x8000_0000_0000_0000

  /** `Message.Type`: only `Text` is told apart. */
  datatype MessageKind = TextMessage | OtherMessage

  /** The fields of `Update.Message` the handler reads: its type, its text and
      the id of its sender `From.Id`. */
  datatype Message = Message(kind: MessageKind, text: Text, fromId: ChatId)

  /** `Update`: an update of type `Message` carries a message; every other
      update type (edited message, callback query, ...) is `OtherUpdate`. */
  datatype Update = MessageUpdate(message: Message) | OtherUpdate

  /** The send the handler calls for a text message, with its arguments;
      `to` is the recipient, and `text` is the message's text that
      `CountChars` and `SumNumbers` are called with. */
  datatype Reply =
    | Menu(to: ChatId)
    | CountPrompt(to: ChatId)
    | SumPrompt(to: ChatId)
    | BlankPrompt(to: ChatId)
    | CharCount(to: ChatId, text: Text)
    | Sum(to: ChatId, text: Text)

  /** A reply keyboard: rows of button labels, and whether Telegram may
      shrink it to fit (`ResizeKeyboard`). */
  datatype Keyboard = Keyboard(rows: seq<seq<Text>>, resize: bool)

  /** The arguments of one `SendTextMessageAsync` call. */
  datatype Outgoing = Outgoing(chatId: ChatId, body: Text, keyboard: Option<Keyboard>)

  // The bot's fixed texts.
  const StartCommand: Text := Units("/start")
  const CountLabel: Text := Units("Подсчитать символы в тексте")
  const SumLabel: Text := Units("Вычислить сумму чисел")
  const MenuText: Text := Units("Выберите действие:")
  const PleaseEnter: Text := Units("Пожалуйста, введите ")
  const CountPromptText: Text := PleaseEnter + Units("текст для подсчета символов:")
  const SumPromptText: Text := PleaseEnter + Units("числа через пробел для их суммы:")
  const BlankPromptText: Text := PleaseEnter + Units("текст для обработки.")
  const CountBodyStart: Text := Units("В вашем сообщении ")
  const CountBodyEnd: Text := Units(" символов.")
  const SumBodyStart: Text := Units("Сумма чисел: ")

  /** `HandleUpdateAsync`: a reply exactly for message updates of type text,
      and always to the sender. */
  function HandleUpdate<N>(lib: Library<N>, update: Update): (r: Option<Outgoing>)
    ensures r.Some? <==> update.MessageUpdate? && update.message.kind == TextMessage
    ensures r.Some? ==> r.value.chatId == update.message.fromId
  {
    if update.MessageUpdate? && update.message.kind == TextMessage then
      var m := update.message;
      Some(Send(lib, Route(lib, m.text, m.fromId)))
    else
      None
  }

  /** The chain of tests `HandleUpdateAsync` applies to the text of a text
      message sent by `from`. */
  function Route<N>(lib: Library<N>, text: Text, from: ChatId): (r: Reply)
    ensures r.to == from
    ensures (r.CharCount? || r.Sum?) ==> r.text == text
    ensures r.CharCount? ==> !Contains(text, Space)
    ensures r.Sum? ==> Contains(text, Space)
  {
    if StartsWith(text, StartCommand) then
      Menu(from)
    else if lib.equalsIgnoreCase(text, CountLabel) then
      CountPrompt(from)
    else if lib.equalsIgnoreCase(text, SumLabel) then
      SumPrompt(from)
    else if !lib.IsNullOrWhiteSpace(text) then
      if Contains(text, Space) then Sum(from, text)
      else CharCount(from, text)
    else
      BlankPrompt(from)
  }

  /** The message each reply is sent as. */
  function Send<N>(lib: Library<N>, r: Reply): (m: Outgoing)
    ensures m.chatId == r.to
    ensures m.keyboard.Some? <==> r.Menu?
  {
    match r
    case Menu(to) => MainMenu(to)
    case CountPrompt(to) => Outgoing(to, CountPromptText, None)
    case SumPrompt(to) => Outgoing(to, SumPromptText, None)
    case BlankPrompt(to) => Outgoing(to, BlankPromptText, None)
    case CharCount(to, text) => CountChars(text, to)
    case Sum(to, text) => SumNumbers(lib, text, to)
  }

  /** `SendMainMenu`: the menu text with two rows of one button each, the
      count label above the sum label, which Telegram may shrink to fit. */
  function MainMenu(chatId: ChatId): (m: Outgoing)
    ensures m.chatId == chatId && m.body == MenuText
    ensures m.keyboard.Some? && m.keyboard.value.resize
    ensures var rows := m.keyboard.value.rows;
      && |rows| == 2 && |rows[0]| == 1 && |rows[1]| == 1
      && rows[0][0] == CountLabel && rows[1][0] == SumLabel
  {
    Outgoing(chatId, MenuText, Some(Keyboard([[CountLabel], [SumLabel]], true)))
  }

  /** The decimal digits between the fixed start and end of a count reply. */
  function CountDigits(body: Text): Text
    requires |body| >= |CountBodyStart| + |CountBodyEnd|
  {
    body[|CountBodyStart|..|body| - |CountBodyEnd|]
  }

  /** `CountChars`: the reply is the fixed start, the canonical decimal
      digits of the text's length in UTF-16 code units, and the fixed end;
      the digits read back as that length, so texts of different lengths
      get different replies. */
  function CountChars(text: Text, chatId: ChatId): (m: Outgoing)
    ensures m.chatId == chatId && m.keyboard == None
    ensures StartsWith(m.body, CountBodyStart)
    ensures |m.body| >= |CountBodyStart| + |CountBodyEnd|
    ensures m.body[|m.body| - |CountBodyEnd|..] == CountBodyEnd
    ensures Decimal.Canonical(CountDigits(m.body))
    ensures Decimal.Value(CountDigits(m.body)) == |text|
  {
    var digits := Decimal.Render(|text|);
    var body := CountBodyStart + digits + CountBodyEnd;
    assert body[..|CountBodyStart|] == CountBodyStart;
    assert CountDigits(body) == digits;
    assert body[|body| - |CountBodyEnd|..] == CountBodyEnd;
    Decimal.ValueRender(|text|);
    Outgoing(chatId, body, None)
  }

  /** `SumNumbers`: the message is split at every space into tokens that
      hold no space and join back into the message; the reply is the fixed
      start and the rendered sum of the tokens' values, 0 for a token that
      does not parse; when no token parses and 0 + 0 == 0, the sum is 0. */
  function SumNumbers<N>(lib: Library<N>, message: Text, chatId: ChatId): (m: Outgoing)
    ensures m.chatId == chatId && m.keyboard == None
    ensures var tokens := Split(message, Space);
      && Join(tokens, Space) == message
      && m.body == SumBodyStart + lib.format(Total(lib, Values(lib, tokens)))
    ensures var tokens := Split(message, Space);
      (lib.add(lib.zero, lib.zero) == lib.zero
       && forall k :: 0 <= k < |tokens| ==> lib.tryParse(tokens[k]).None?)
      ==> m.body == SumBodyStart + lib.format(lib.zero)
  {
    var tokens := Split(message, Space);
    JoinSplit(message, Space);
    assert (lib.add(lib.zero, lib.zero) == lib.zero
            && forall k :: 0 <= k < |tokens| ==> lib.tryParse(tokens[k]).None?)
        ==> Total(lib, Values(lib, tokens)) == lib.zero by {
      if lib.add(lib.zero, lib.zero) == lib.zero
        && (forall k :: 0 <= k < |tokens| ==> lib.tryParse(tokens[k]).None?) {
        NothingParsedSumsToZero(lib, tokens);
      }
    }
    Outgoing(chatId, SumBodyStart + lib.format(Total(lib, Values(lib, tokens))), None)
  }

  /** `double.TryParse(x, out var num) ? num : 0`: the parsed number, or 0
      when the token does not parse. */
  function ValueOrZero<N>(lib: Library<N>, token: Text): (v: N)
    ensures lib.tryParse(token).Some? ==> v == lib.tryParse(token).value
    ensures lib.tryParse(token).None? ==> v == lib.zero
  {
    match lib.tryParse(token)
    case Some(v) => v
    case None => lib.zero
  }

  /** `.Select(x => ...)`: one value per token, in order. */
  function Values<N>(lib: Library<N>, tokens: seq<Text>): (vs: seq<N>)
    ensures |vs| == |tokens|
    ensures forall k :: 0 <= k < |tokens| ==> vs[k] == ValueOrZero(lib, tokens[k])
  {
    seq(|tokens|, k requires 0 <= k < |tokens| => ValueOrZero(lib, tokens[k]))
  }

  /** The running sum `Enumerable.Sum` keeps: starting from `acc`, add the
      values one by one from left to right. */
  function Accumulate<N>(lib: Library<N>, acc: N, vs: seq<N>): N
  {
    if vs == [] then acc
    else Accumulate(lib, lib.add(acc, vs[0]), vs[1..])
  }

  /** Adding one more value at the end adds it to the running sum. */
  lemma {:induction false} AccumulateSnoc<N>(lib: Library<N>, acc: N, vs: seq<N>, x: N)
    ensures Accumulate(lib, acc, vs + [x]) == lib.add(Accumulate(lib, acc, vs), x)
  {
    if vs != [] {
      assert (vs + [x])[0] == vs[0] && (vs + [x])[1..] == vs[1..] + [x];
      AccumulateSnoc(lib, lib.add(acc, vs[0]), vs[1..], x);
    } else {
      assert [x][1..] == [];
    }
  }

  /** `Enumerable.Sum`: the sum of all values but the last, plus the last;
      it equals the running sum from 0 from left to right. */
  function Total<N>(lib: Library<N>, vs: seq<N>): (t: N)
    ensures t == Accumulate(lib, lib.zero, vs)
  {
    if vs == [] then lib.zero
    else
      var init, last := vs[..|vs| - 1], vs[|vs| - 1];
      assert vs == init + [last];
      AccumulateSnoc(lib, lib.zero, init, last);
      lib.add(Total(lib, init), last)
  }

  /** The values of the tokens that parse, in order. */
  function Parsed<N>(lib: Library<N>, tokens: seq<Text>): seq<N>
  {
    if tokens == [] then []
    else
      Parsed(lib, tokens[..|tokens| - 1])
        + match lib.tryParse(tokens[|tokens| - 1])
          case Some(v) => [v]
          case None => []
  }

  /** Tokens that do not parse count as 0 in the sum: if 0 is a right
      identity of addition, the sum is the sum of the parsed tokens alone.
      (IEEE addition has x + 0 == x for every x but -0; the running sum
      `Enumerable.Sum` starts from +0 and is never -0.) */
  lemma {:induction false} SumSkipsUnparsed<N>(lib: Library<N>, tokens: seq<Text>)
    requires forall x :: lib.add(x, lib.zero) == x
    ensures Total(lib, Values(lib, tokens)) == Total(lib, Parsed(lib, tokens))
  {
    if tokens != [] {
      var init := tokens[..|tokens| - 1];
      var vs := Values(lib, tokens);
      assert vs[..|vs| - 1] == Values(lib, init);
      SumSkipsUnparsed(lib, init);
      match lib.tryParse(tokens[|tokens| - 1])
      case Some(v) =>
        var ps := Parsed(lib, init) + [v];
        assert ps[..|ps| - 1] == Parsed(lib, init);
      case None =>
        assert Parsed(lib, tokens) == Parsed(lib, init);
    }
  }

  /** When no token parses the sum is 0 (as for "hello world"), given only
      that 0 + 0 == 0. */
  lemma {:induction false} NothingParsedSumsToZero<N>(lib: Library<N>, tokens: seq<Text>)
    requires lib.add(lib.zero, lib.zero) == lib.zero
    requires forall k :: 0 <= k < |tokens| ==> lib.tryParse(tokens[k]).None?
    ensures Total(lib, Values(lib, tokens)) == lib.zero
  {
    if tokens != [] {
      var init := tokens[..|tokens| - 1];
      var vs := Values(lib, tokens);
      assert vs[..|vs| - 1] == Values(lib, init);
      NothingParsedSumsToZero(lib, init);
    }
  }
}
