# UtilityBot update handler in Dafny

UtilityBot is a Telegram bot with two text utilities. It can count the characters of a message, and it can sum the numbers in a message. This project models the bot's update handler (`Bot.HandleUpdateAsync` and the three sends it dispatches to) and proves what it does for every possible update.

For each update, the handler takes these steps:

- An update that is not a text message gets no reply.
- For a text message, the handler tries five tests in a fixed order and sends exactly one reply to the sender:
  1. Text that starts with `/start` gets the main menu: "Выберите действие:" and two one-button rows, "Подсчитать символы в тексте" above "Вычислить сумму чисел".
  2. Text equal to the first label, ignoring case, gets the prompt to enter text to count.
  3. Text equal to the second label, ignoring case, gets the prompt to enter numbers.
  4. Empty or white-space-only text gets "Пожалуйста, введите текст для обработки.".
  5. Text holding a space `' '` is split on spaces. Each token that `double.TryParse` accepts counts with its value, every other token counts as 0, and the reply is "Сумма чисел: {sum}". Text without a space gets "В вашем сообщении N символов.", where N is its length in UTF-16 code units.

Files:

- `utf16.dfy` (module `Utf16`): text as a sequence of UTF-16 code units. It defines `Split(' ')`, `Join`, prefix matching and the encoding of the bot's fixed texts.
- `decimal.dfy` (module `Decimal`): the decimal rendering of the character count, and a reader of digits that inverts it.
- `dotnet.dfy` (module `DotNet`): the .NET library operations the handler calls. They are fields of a `Library` value, which every function takes as a parameter. These operations are case-insensitive ordinal equality, `char.IsWhiteSpace`, `double.TryParse`, `double` addition and `double` formatting. `Library.Valid()` lists the few facts about them that some lemmas need.
- `bot.dfy` (module `Bot`): updates, the send the handler picks (`Reply`), the routing chain `Route`, the three sends `MainMenu`, `CountChars` and `SumNumbers` with the messages they produce, and the parsing and summing of tokens.
- `bot_properties.dfy` (module `BotProperties`): an independent statement of the priority order as a list of rules, where the first rule that applies wins, and the lemmas about the handler.

The handler keeps no state, so it is modelled as functions. Equal updates therefore get equal replies, and every reply goes to `update.Message.From.Id`.

Behaviour the code fixes:

- Blank text gets a prompt, not silence.
- A token that does not parse counts as 0. The code never falls back to the character count, so "3 four" gets a sum.
- Sum versus count depends only on whether the text holds a `' '`. A single number such as "42" gets its character count.

## Model

| member | source | states |
|---|---|---|
| Bot.HandleUpdate | UtilityBot/Bot.cs:35-72 | an update gets a reply exactly when it is a message update whose message is of type text, and the reply goes to the message's sender |
| Bot.Route | UtilityBot/Bot.cs:39-70 | every text message gets one reply, addressed to the sender; the character count is called only for text without a space and the sum only for text that holds a space, each with the message's own text |
| BotProperties.FirstApplying | UtilityBot/Bot.cs:41-70 | the reference definition of the priority order: the position of the first rule that applies, with no earlier rule applying |
| BotProperties.RouteFollowsPriority | UtilityBot/Bot.cs:41-70 | the handler's reply is always the one of the first rule that applies, in the order `/start` prefix, count label, sum label, blank text, a space, anything else; some rule always applies |
| BotProperties.FixedTextFacts | UtilityBot/Bot.cs:41-49 | `/start` has 6 code units; the labels have 27 and 21, start with Cyrillic letters, and hold spaces at 10, 18, 20 and at 9, 15 |
| BotProperties.StartGetsMenu | UtilityBot/Bot.cs:41-43 | any text that starts with `/start` gets the main menu, whatever follows, including `/start` followed by a label |
| Bot.Send | UtilityBot/Bot.cs:41-101 | each reply is sent to its recipient, and only the menu carries a keyboard |
| Bot.MainMenu | UtilityBot/Bot.cs:74-86 | the menu goes to the given chat with the text "Выберите действие:" and exactly two rows of one button each, the count label above the sum label, with resizing on |
| BotProperties.MenuButtonsGetPrompts | UtilityBot/Bot.cs:41-85 | `/start` gets that menu; sending either button's label gets that label's prompt, although both labels hold spaces |
| BotProperties.BlankGetsPrompt | UtilityBot/Bot.cs:55-68 | empty or white-space-only text always gets the prompt "Пожалуйста, введите текст для обработки.", because such text can neither start with `/start` nor equal a label |
| BotProperties.LabelHoldsSpace | UtilityBot/Bot.cs:45-49 | text equal to a label ignoring case has the label's length and a space wherever the label has one (10, 18, 20 for the count label; 9, 15 for the sum label) |
| Bot.CountChars | UtilityBot/Bot.cs:88-92 | the reply goes to the given chat without a keyboard and is "В вашем сообщении ", canonical decimal digits and " символов."; the digits read back as the text's length in UTF-16 code units, so texts of different lengths get different replies |
| BotProperties.NoSpaceGetsCount | UtilityBot/Bot.cs:55-63 | non-blank text without a space that does not start with `/start` gets the character count of that text, whatever else it is |
| BotProperties.NumberGetsCount | UtilityBot/Bot.cs:57-92 | the single number "42" gets "В вашем сообщении 2 символов.", not a sum |
| BotProperties.NoSpaceIgnoresNumbers | UtilityBot/Bot.cs:57-63 | for text without a space, the reply and the message sent do not depend on how numbers are parsed, added or rendered |
| Bot.SumNumbers | UtilityBot/Bot.cs:94-101 | the reply goes to the given chat without a keyboard; the message is split into tokens that join back into it, and the reply is "Сумма чисел: " and the rendered sum of the tokens' values; when no token parses (and 0 + 0 is 0) the sum is 0 |
| BotProperties.SpaceGetsSum | UtilityBot/Bot.cs:57-101 | non-blank text with a space that matches no earlier test gets the sum of its tokens, never a count; it has one token more than spaces, and joining the tokens with spaces gives back the text |
| Utf16.Split | UtilityBot/Bot.cs:96 | `Split(' ')` gives one piece more than there are separators, empty pieces included, and no piece holds a separator |
| Utf16.JoinSplit | UtilityBot/Bot.cs:96 | joining the pieces of a split with the separator gives back the text |
| Utf16.SplitJoin | UtilityBot/Bot.cs:96 | splitting the join of separator-free pieces gives back the pieces |
| Bot.ValueOrZero | UtilityBot/Bot.cs:97 | a token that `double.TryParse` accepts gives the parsed number; any other token gives 0 |
| Bot.Values | UtilityBot/Bot.cs:96-98 | one value per token, in order: the parsed number, or 0 when the token does not parse |
| Bot.Total | UtilityBot/Bot.cs:99 | the sum equals the running sum that starts from 0 and adds the values one by one from left to right |
| BotProperties.TotalOfTwo | UtilityBot/Bot.cs:99 | the sum of two values is (0 + first) + second |
| BotProperties.TwoTokensGetSum | UtilityBot/Bot.cs:57-101 | any non-blank text of two space-free tokens joined by one space that does not start with `/start` gets "Сумма чисел: " and (0 + first) + second, with 0 for a token that does not parse; it cannot equal a label, which holds two or more spaces |
| BotProperties.MixedTokensGetSum | UtilityBot/Bot.cs:57-99 | "3 four" gets a sum, not a character count, and when "four" does not parse it counts as 0 |
| Bot.SumSkipsUnparsed | UtilityBot/Bot.cs:97-99 | the sum equals the sum of the tokens that parse alone |
| Bot.NothingParsedSumsToZero | UtilityBot/Bot.cs:97-99 | when no token parses, as in "hello world", the sum is 0 |
| Decimal.Render | UtilityBot/Bot.cs:91 | the count is rendered as canonical decimal digits: non-empty, digits only, no leading zero |
| Decimal.ValueRender | UtilityBot/Bot.cs:91 | reading back the rendered digits gives the count |
| Decimal.RenderValue | UtilityBot/Bot.cs:91 | rendering the value of canonical digits gives the digits back, so rendering is a bijection onto canonical digit strings |
| Decimal.RenderInjective | UtilityBot/Bot.cs:91 | different counts render differently |

## Left out

- Telegram SDK calls (`StartReceiving`, `SendTextMessageAsync`, the construction of `ReplyKeyboardMarkup`): network I/O in a foreign library. A send is modelled as the `Outgoing` value holding its arguments.
- `ExecuteAsync`, the `BackgroundService` lifecycle, async code and cancellation tokens: hosting and concurrency, with no routing logic.
- `HandleErrorAsync`: console logging and a 10-second `Thread.Sleep` before the next retry. This is pure I/O and timing.
- `UtilityBot/Program.cs`: dependency-injection and host wiring, console encoding and the bot token. It holds no logic.
- Floating point: `double.TryParse` is culture-sensitive, the sum uses IEEE rounding, and `{sum}` is formatted by culture. Parsing, addition, the value 0 and formatting are abstract fields of `Library`, so no rendered digits of a sum are modelled.
- Bot.SumSkipsUnparsed: assumes x + 0 == x for every x. IEEE addition breaks this only for x = -0, and the running sum of `Enumerable.Sum` starts from +0 and is never -0. The lemma does not prove that last fact. `Bot.SumNumbers` states only the case where no token parses in its own contract, and this lemma covers the general case.
- Bot.Route: `StartsWith("/start")` is culture-sensitive in .NET and may ignore zero-width characters. The model uses plain code-unit prefix matching.
- Case-insensitive equality and `char.IsWhiteSpace` are abstract. The model does not include the Unicode case-folding tables or the full white-space set. `Library.Valid()` only states facts .NET guarantees:
  - equality ignoring case is reflexive and symmetric;
  - it preserves length;
  - it keeps white space unchanged;
  - `' '` is white space;
  - printable ASCII and the Cyrillic block are not white space.
- A message's text is never null for a text message, so the null case of `string.IsNullOrWhiteSpace` is not modelled.
- Utf16.Units: encodes only Basic Multilingual Plane strings. All of the bot's fixed texts are Cyrillic and ASCII, so the surrogate-pair case is not needed.
