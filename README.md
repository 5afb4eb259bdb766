# Taxi order conversation, modelled in Dafny

This project models the order conversation of a Telegram taxi bot (`app.py`).
The bot takes a user through a chain of step handlers:
`start` → `handle_street_from` → `handle_house_number_from` → `handle_street` →
`handle_house_number` → `handle_car_type` → `handle_confirmation`.

- Each handler consumes one text message and sends a reply.
- Each handler registers at most one next handler, with the fields gathered so far as its arguments.
- The destination street is looked up in the address catalogue `adress.csv`.
  The lookup is case-insensitive, and the first matching row wins.
- The row's district gives a base price from a fixed table. An unknown district gets 0.
- The chosen car class multiplies the base price by 1.0, 1.2 or 1.4.
- Confirming the order announces a driver taken from `drivers.csv`.

Modules, one per concern:

- `Text` (`Text.dfy`): `Lower`, a model of Python's `str.lower`, with its idempotence proved. Also the whitespace test behind `str.split`.
- `Pricing` (`Pricing.dfy`): the district table `prices_per_district`, the car classes, and the announced and chosen prices.
  Prices are exact integers counted in tenths of a hryvnia, so `base * 1.2` is `base * 12` tenths.
- `Catalog` (`Catalog.dfy`): the catalogue scan as a recursive function, characterised by the first row at which the `for` loop leaves.
- `Keyboard` (`Keyboard.dfy`): the confirmation keyboard's buttons, the words the confirmation compares against, and the proof that each button reaches its branch.
- `Roster` (`Roster.dfy`): choosing the announced driver. The random choice is an index supplied by the caller.
- `Conversation` (`Conversation.dfy`): the state machine and the end-to-end lemmas.
  - A `State` is the registered handler together with exactly the arguments forwarded to it. `Done` means no handler is registered.
  - `Step` delivers one text. `Run` delivers a sequence of texts.
  - `HandleHouseNumber` is the imperative loop of `handle_house_number`, proved equal to the functional step.
  - `ChatSession` is the bot's per-chat next-step entry, updated in place on each delivered text.

The CSV files arrive as sequences of rows, each row a sequence of fields, with the header as row 0.
An empty sequence stands for a file with no header line: there `next(csv_reader)` raises, and the handler's `except` turns that into the error reply.

Where the code and its reply texts disagree, the model follows the code:

- An unknown street ends the flow (no handler is registered), although the message invites the user to try again.
- A caught exception ends the flow in the same way.
- An unrecognised confirmation reply also ends the flow. It does not re-prompt.
- The reply texts suggest the session stays in its current step. In the code no handler is registered, so only a new `/start` resumes anything (`DoneIsQuiet`).

## Model

| member | source | states |
|---|---|---|
| `Text.LowerIdempotent` | app.py:113 | lower-casing an already lower-cased text changes nothing, so comparing `lower` forms is insensitive to prior lower-casing |
| `Text.Lower` | app.py:113 | `str.lower` as applied to the street at line 113, the car type at 141 and the choice at 172: it keeps the length; `Text.LowerIdempotent` states its idempotence |
| `Pricing.BasePrice` | app.py:20-30 | the base price of a district is at most 190, at least 100 for a listed district, and 0 exactly when the district is not in the table |
| `Pricing.TierOf` | app.py:141-147 | the lower-cased text selects comfort exactly when it is "комфорт", business exactly when it is "бізнес", and standard for every other text, recognised or not |
| `Pricing.TierOfLabel` | app.py:122 | each keyboard label selects its own class |
| `Pricing.Label` | app.py:122 | the three keyboard labels are already lower case, so lower-casing a pressed button gives back its label; `Pricing.TierOfLabel` states that each label selects its own class |
| `Pricing.Multiplier` | app.py:142-147 | the multiplier lies between 1.0 and 1.4 (10 to 14 tenths) |
| `Pricing.QuoteFor` | app.py:116-119 | the three announced prices are base, base × 1.2 and base × 1.4, in increasing order |
| `Pricing.Price` | app.py:149-150 | the price of a trip is the announced price of the chosen class for the same district, and 0 exactly when the district has no fare |
| `Pricing.UnknownDistrictIsFree` | app.py:116-150 | a district missing from the table is priced 0 in every class and in the announced quote |
| `Catalog.ScanFirstStop` | app.py:111-113 | the scan returns the fields of the first row that matches when no earlier row failed to unpack; it fails exactly when the first row that stops it is not three fields wide; it finds nothing exactly when every row unpacks and none matches |
| `Catalog.FindDistrictFound` | app.py:108-113 | a found street is a data row (never the header) that matches, and every data row before it unpacked and did not match |
| `Catalog.ScanAppend` | app.py:111-127 | rows after the point where the scan stops are never consulted; after a prefix with no match and no bad row, the scan continues on the rest |
| `Catalog.ScanIgnoresCase` | app.py:113 | two streets with the same lower-cased form get the same scan outcome |
| `Catalog.FindDistrictIgnoresCase` | app.py:113 | any casing of a street, its lower-cased form, and any casing of the found row's street name all resolve to the same lookup outcome |
| `Catalog.Scan` | app.py:111-125 | the loop over the data rows: a found result is one of the rows, with a street name equal to the requested one up to case; `Catalog.ScanFirstStop` describes the result completely |
| `Catalog.FindDistrict` | app.py:108-129 | the whole lookup: a catalogue without a header is an error, and a found result is a data row after the header whose street name equals the requested one up to case; `Catalog.FindDistrictFound` adds that it is the first such row |
| `Roster.PickDriver` | app.py:174-190 | no drivers exactly when the roster has only its header; an error exactly when there is no header or the chosen row is not four fields wide; otherwise the announced driver is the chosen data row, so a member of the roster after the header |
| `Conversation.Step` | app.py:33-197 | every transition follows the handler chain: from no handler only to no handler or the origin-street handler (`Conversation.StartStep` states which texts go on); each address step to the next with earlier fields forwarded, the lookup to the car type or to no handler, the car type to the confirmation in the same district, and the confirmation back to the car type in the same district or to no handler |
| `Conversation.Run` | app.py:33-197 | delivering n texts, each with its own random driver index, produces n replies |
| `Conversation.IsStartCommand` | app.py:33 | the `/start` filter holds exactly when the bot library's command extraction gives `start`: the text begins with `/`, and its first word cut at `@` is `/start` |
| `Conversation.CommandStem` | app.py:33 | a text's first word cut at `@` is a given prefix free of whitespace and `@` exactly when the text begins with it and then ends or continues with whitespace or `@` |
| `Conversation.HouseNumberStep` | app.py:105-129 | the destination step either waits for the car type, announcing the trip with the gathered fields, a street name equal to the requested one up to case and the district's three prices, or ends the flow with the not-found or the error message; `Conversation.LookupStep` states which case occurs |
| `Conversation.CarTypeStep` | app.py:141-158 | the car-type step waits for the confirmation in the same district, with a lower-cased car type and that car type's price, and announces that price |
| `Conversation.ConfirmationStep` | app.py:172-197 | the confirmation step either ends the flow or returns to the car type in the same district, and it returns exactly when the lower-cased text is "назад" |
| `Conversation.Announce` | app.py:179-190 | a chosen driver is announced with its four fields, an empty roster gets the no-drivers message, and a roster error gets the error message, and nothing else |
| `Conversation.HandleHouseNumber` | app.py:105-129 | the loop over the catalogue rows, with its early returns, produces exactly the outcome of the functional destination step |
| `Conversation.ChatSession.constructor` | app.py:16 | a new chat has no handler registered |
| `Conversation.ChatSession.Deliver` | app.py:43-195 | the registered handler is replaced by the one the consuming handler registers, and the reply is that handler's reply |
| `Keyboard.ButtonsSelectBranches` | app.py:122-191 | the "Підтверджую" and "Назад" buttons lower-case to the words the confirmation compares against, and the car-class labels are already lower case |
| `Conversation.AddressSteps` | app.py:46-88 | the three address steps after the greeting accept any text, store it and forward the earlier fields unchanged |
| `Conversation.LookupStep` | app.py:105-129 | the destination step waits for the car type exactly when the street is found, with the district and street name of the first matching data row and that district's three prices; not found ends the flow with the not-found message, a malformed catalogue with the error message |
| `Conversation.CarTypeStepPrice` | app.py:141-158 | the car-type step forwards the district, the lower-cased text and the announced price of the class that text selects |
| `Conversation.ConfirmationOutcomes` | app.py:172-197 | "назад" in any casing returns to the car type in the same district; every other text ends the flow; a confirmation announces a roster row, or says there are no drivers exactly when the roster has only its header; the error message exactly when the roster has no header or the picked row is not four fields wide; otherwise the picked row itself is announced; anything else gets the unrecognised-choice message |
| `Conversation.StepPreservesConsistent` | app.py:141-158 | every step keeps a pending confirmation's car type lower-cased and its price equal to that car type's price in its district |
| `Conversation.RunPreservesConsistent` | app.py:141-158 | the same holds after any sequence of texts |
| `Conversation.ConfirmedPriceWasAdvertised` | app.py:116-158 | whatever texts arrive after the chat starts, a pending confirmation's price is one of the three prices announced for its district |
| `Conversation.BackThenSameTier` | app.py:191-195 | going back and choosing the same car type again, in any casing, returns to exactly the same confirmation, with the same price |
| `Conversation.DoneIsQuiet` | app.py:33-43 | with no handler registered, texts other than `/start` get no reply and register nothing, however many arrive |
| `Conversation.StartStep` | app.py:33-43 | with no handler registered, a text leaves that state exactly when the bot library extracts the command `start` from it, and every such text gets the greeting and registers the origin-street handler |
| `Conversation.StartCommandsAccepted` | app.py:33 | `/start` and `/start@bot` pass the command filter and `/started` does not |
| `Conversation.OrderReachesCarType` | app.py:33-124 | a text the `/start` filter accepts, two origin texts, a destination street the catalogue knows and a house number produce the greeting, the three prompts and the trip quote for the found row's district, and then wait for the car type |
| `Conversation.OrderConfirmed` | app.py:141-186 | a car-type text followed by a text that lower-cases to "підтверджую" (the confirmation button among them, by `Keyboard.ButtonsSelectBranches`) ends the flow, with the tier price and then the announcement of the chosen roster row |

## Left out

- Telegram transport: `send_message`, keyboards, the internals of `register_next_step_handler`, and `bot.polling()`.
  Replies are abstract `Reply` tags. The registered handler is the next `State`.
  An exception raised while sending is not modelled, so `handle_street` always advances.
- The command filter is modelled only by `IsStartCommand`: the text starts with "/start", followed by the end, `@` or whitespace.
  The text is consumed by a registered step handler first, so "/start" sent mid-flow is ordinary text.
- Token loading with dotenv and `os.environ`, and the commented-out Flask webhook: configuration and dead code.
- Opening and reading `adress.csv` and `drivers.csv`, and CSV tokenisation.
  The rows are inputs, and a failure to open a file is not represented.
- `random.choice`: the caller supplies the index `pick`, constrained by `ValidPick`. In a `Run`, every text has its own index, so each confirmation makes a fresh choice. Their distribution is not modelled.
- `time.sleep(2)`: timing only. The "searching" message and the announcement form one reply, `DriverOnTheWay`.
- The exception text in the error replies, the `:.2f` formatting of prices, and all message wording.
- Floating-point prices: Python computes `base * 1.2` in binary floating point. The model uses exact tenths, the value the formatted message shows.
- Messages without text (`message.text` is `None`): the model delivers strings only.
- Text.Lower: covers ASCII letters, the basic Cyrillic capitals U+0400–U+042F and Ґ. Every other character is left unchanged, so this is weaker than Python's full Unicode `str.lower`.
- Text.IsSpace: follows Python's `str.isspace` character list. It is used only for the `/start` filter.
