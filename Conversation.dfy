/** The order conversation: the chain of step handlers `start`,
    `handle_street_from`, `handle_house_number_from`, `handle_street`,
    `handle_house_number`, `handle_car_type` and `handle_confirmation`.
    Each handler consumes one text, sends a reply and registers at most one
    next handler together with the arguments it forwards. A `State` is the
    handler registered for the chat with those arguments; `Done` means that
    none is registered, so only the `/start` command handler can fire. */
module Conversation {
  import opened Text
  import opened Pricing
  import opened Catalog
  import opened Roster
  import opened Keyboard

  datatype State =
    | Done
    | AwaitingStreetFrom
    | AwaitingHouseNumberFrom(streetFrom: string)
    | AwaitingStreet(streetFrom: string, houseNumberFrom: string)
    | AwaitingHouseNumber(streetFrom: string, houseNumberFrom: string, street: string)
    | AwaitingCarType(district: string)
    | AwaitingConfirmation(district: string, carType: string, price: nat)

  /** What the handler sends back, as a tag with the values shown in it
      (prices in tenths of a hryvnia). */
  datatype Reply =
    | Silent
    | AskStreetFrom
    | AskHouseNumberFrom(streetFrom: string)
    | AskStreet
    | AskHouseNumber(street: string)
    | TripQuote(streetFrom: string, houseNumberFrom: string, streetName: string,
                houseNumber: string, district: string, quote: Quote)
    | StreetNotFound
    | Failure
    | TierPrice(carType: string, price: nat)
    | DriverOnTheWay(color: string, company: string, model: string, driverId: string)
    | NoDriversAvailable
    | ChooseCarType
    | UnrecognisedChoice

  /** The handler registered next, and the reply sent. */
  datatype Outcome = Outcome(next: State, reply: Reply)

  /** The first word of a text, as `text.split()[0]` gives it for a text
      that does not start with whitespace. */
  function FirstWord(text: string): string
  {
    if text == [] || IsSpace(text[0]) then [] else [text[0]] + FirstWord(text[1..])
  }

  /** What comes before the first `@`, as `word.split('@')[0]`. */
  function BeforeAt(word: string): string
  {
    if word == [] || word[0] == '@' then [] else [word[0]] + BeforeAt(word[1..])
  }

  /** The bot library's command extraction says `start`: the text begins with
      `/`, and its first word cut at `@`, without the `/`, is `start`. */
  predicate CommandIsStart(text: string)
  {
    |text| > 0 && text[0] == '/' && BeforeAt(FirstWord(text)) == "/start"
  }

  /** The first word cut at `@` is exactly the prefix `p` (which holds neither
      whitespace nor `@`) when the text begins with `p` and then ends or
      continues with whitespace or `@`. */
  lemma {:induction false} CommandStem(text: string, p: string)
    requires forall i :: 0 <= i < |p| ==> !IsSpace(p[i]) && p[i] != '@'
    ensures BeforeAt(FirstWord(text)) == p <==>
      |p| <= |text| && text[..|p|] == p && (|text| == |p| || text[|p|] == '@' || IsSpace(text[|p|]))
  {
    if text != [] && !IsSpace(text[0]) && text[0] != '@' {
      assert FirstWord(text) == [text[0]] + FirstWord(text[1..]);
      assert BeforeAt(FirstWord(text)) == [text[0]] + BeforeAt(FirstWord(text[1..]));
      if p != [] {
        CommandStem(text[1..], p[1..]);
        if |p| <= |text| {
          assert text[..|p|] == [text[0]] + text[1..][..|p| - 1];
        }
        assert p == [p[0]] + p[1..];
      }
    } else if p != [] {
      if |p| <= |text| {
        assert text[..|p|][0] == text[0];
      }
    }
  }

  /** The bot's command filter for `start`: the text is `/start`, followed by
      nothing, by `@` (a bot name) or by whitespace (arguments). */
  predicate IsStartCommand(text: string)
    ensures IsStartCommand(text) <==> CommandIsStart(text)
  {
    CommandStem(text, "/start");
    |text| >= 6 && text[..6] == "/start" && (|text| == 6 || text[6] == '@' || IsSpace(text[6]))
  }

  /** `handle_house_number`: look the destination street up, announce the trip
      and the three prices of its district, and wait for the car type; when
      the street is not found or the lookup raises, reply so and register
      nothing. */
  function HouseNumberStep(streetFrom: string, houseNumberFrom: string, street: string,
                           houseNumber: string, catalog: seq<Row>): (o: Outcome)
    ensures o.next == Done || o.next.AwaitingCarType?
    ensures o.next.AwaitingCarType? ==>
      o.reply.TripQuote? && o.reply.district == o.next.district && o.reply.quote == QuoteFor(o.next.district)
      && o.reply.streetFrom == streetFrom && o.reply.houseNumberFrom == houseNumberFrom
      && o.reply.houseNumber == houseNumber && Lower(o.reply.streetName) == Lower(street)
    ensures o.next == Done ==> o.reply == StreetNotFound || o.reply == Failure
  {
    match FindDistrict(catalog, street)
    case Found(district, _, streetName) =>
      Outcome(AwaitingCarType(district),
              TripQuote(streetFrom, houseNumberFrom, streetName, houseNumber, district, QuoteFor(district)))
    case NotFound => Outcome(Done, StreetNotFound)
    case Malformed => Outcome(Done, Failure)
  }

  /** `handle_car_type`: lower-case the text, price it, and wait for the
      confirmation with the district, the lower-cased text and the price. */
  function CarTypeStep(district: string, text: string): (o: Outcome)
    ensures o.next.AwaitingConfirmation? && o.next.district == district
    ensures Consistent(o.next)
    ensures o.reply == TierPrice(o.next.carType, o.next.price)
  {
    LowerIdempotent(text);
    var carType := Lower(text);
    var price := Price(district, carType);
    Outcome(AwaitingConfirmation(district, carType, price), TierPrice(carType, price))
  }

  /** The messages sent for each result of the driver choice. */
  function Announce(a: Assignment): (r: Reply)
    ensures r.DriverOnTheWay? <==> a.Assigned?
    ensures r.DriverOnTheWay? ==>
      r.color == a.color && r.company == a.company && r.model == a.model && r.driverId == a.driverId
    ensures r == NoDriversAvailable <==> a == NoDrivers
    ensures r == Failure <==> a == RosterError
  {
    match a
    case Assigned(color, company, model, driverId) => DriverOnTheWay(color, company, model, driverId)
    case NoDrivers => NoDriversAvailable
    case RosterError => Failure
  }

  /** `handle_confirmation`: confirming announces a driver and ends the flow,
      going back waits for the car type again, anything else ends the flow. */
  function ConfirmationStep(district: string, text: string, roster: seq<Row>, pick: nat): (o: Outcome)
    requires ValidPick(roster, pick)
    ensures o.next == Done || o.next == AwaitingCarType(district)
    ensures o.next == AwaitingCarType(district) <==> Lower(text) == BackWord
  {
    var choice := Lower(text);
    if choice == ConfirmWord then Outcome(Done, Announce(PickDriver(roster, pick)))
    else if choice == BackWord then Outcome(AwaitingCarType(district), ChooseCarType)
    else Outcome(Done, UnrecognisedChoice)
  }

  /** The handler graph: which handler each one may register next, and the
      arguments that are forwarded unchanged. */
  predicate Successor(s: State, t: State)
  {
    match s
    case Done => t == Done || t == AwaitingStreetFrom
    case AwaitingStreetFrom => t.AwaitingHouseNumberFrom?
    case AwaitingHouseNumberFrom(streetFrom) => t.AwaitingStreet? && t.streetFrom == streetFrom
    case AwaitingStreet(streetFrom, houseNumberFrom) =>
      t.AwaitingHouseNumber? && t.streetFrom == streetFrom && t.houseNumberFrom == houseNumberFrom
    case AwaitingHouseNumber(_, _, _) => t == Done || t.AwaitingCarType?
    case AwaitingCarType(district) => t.AwaitingConfirmation? && t.district == district
    case AwaitingConfirmation(district, _, _) => t == Done || t == AwaitingCarType(district)
  }

  /** One incoming text delivered to the chat. */
  function Step(s: State, text: string, catalog: seq<Row>, roster: seq<Row>, pick: nat): (o: Outcome)
    requires ValidPick(roster, pick)
    ensures Successor(s, o.next)
  {
    match s
    case Done =>
      if IsStartCommand(text) then Outcome(AwaitingStreetFrom, AskStreetFrom) else Outcome(Done, Silent)
    case AwaitingStreetFrom =>
      Outcome(AwaitingHouseNumberFrom(text), AskHouseNumberFrom(text))
    case AwaitingHouseNumberFrom(streetFrom) =>
      Outcome(AwaitingStreet(streetFrom, text), AskStreet)
    case AwaitingStreet(streetFrom, houseNumberFrom) =>
      Outcome(AwaitingHouseNumber(streetFrom, houseNumberFrom, text), AskHouseNumber(text))
    case AwaitingHouseNumber(streetFrom, houseNumberFrom, street) =>
      HouseNumberStep(streetFrom, houseNumberFrom, street, text, catalog)
    case AwaitingCarType(district) =>
      CarTypeStep(district, text)
    case AwaitingConfirmation(district, _, _) =>
      ConfirmationStep(district, text, roster, pick)
  }

  /** Every confirmation in a run gets its own driver index. */
  predicate ValidPicks(roster: seq<Row>, picks: seq<nat>)
  {
    forall i :: 0 <= i < |picks| ==> ValidPick(roster, picks[i])
  }

  /** A sequence of texts delivered one after another; `picks[i]` is the
      random driver index available while the `i`-th text is handled. */
  function Run(s: State, texts: seq<string>, picks: seq<nat>, catalog: seq<Row>, roster: seq<Row>)
    : (r: (State, seq<Reply>))
    requires |picks| == |texts| && ValidPicks(roster, picks)
    ensures |r.1| == |texts|
    decreases |texts|
  {
    if texts == [] then (s, [])
    else
      var o := Step(s, texts[0], catalog, roster, picks[0]);
      var rest := Run(o.next, texts[1..], picks[1..], catalog, roster);
      (rest.0, [o.reply] + rest.1)
  }

  /** `handle_house_number` as written: the loop over the catalogue rows with
      an early return at the first row that matches or fails to unpack. */
  method HandleHouseNumber(streetFrom: string, houseNumberFrom: string, street: string,
                           houseNumber: string, catalog: seq<Row>) returns (o: Outcome)
    ensures o == HouseNumberStep(streetFrom, houseNumberFrom, street, houseNumber, catalog)
  {
    if |catalog| == 0 {
      return Outcome(Done, Failure);
    }
    var i := 1;
    while i < |catalog|
      invariant 1 <= i <= |catalog|
      invariant Scan(catalog[1..], street) == Scan(catalog[i..], street)
    {
      var row := catalog[i];
      if |row| != 3 {
        return Outcome(Done, Failure);
      }
      var district, streetName := row[0], row[2];
      if Lower(street) == Lower(streetName) {
        return Outcome(AwaitingCarType(district),
                       TripQuote(streetFrom, houseNumberFrom, streetName, houseNumber, district,
                                 QuoteFor(district)));
      }
      assert catalog[i..][1..] == catalog[i + 1..];
      i := i + 1;
    }
    return Outcome(Done, StreetNotFound);
  }

  /** The bot's next-step table entry for one chat: the registered handler,
      replaced by whatever the handler that consumes a text registers. */
  class ChatSession {
    var handler: State

    constructor ()
      ensures handler == Done
    {
      handler := Done;
    }

    method Deliver(text: string, catalog: seq<Row>, roster: seq<Row>, pick: nat) returns (reply: Reply)
      requires ValidPick(roster, pick)
      modifies this
      ensures Outcome(handler, reply) == Step(old(handler), text, catalog, roster, pick)
    {
      var o: Outcome;
      match handler {
        case AwaitingHouseNumber(streetFrom, houseNumberFrom, street) =>
          o := HandleHouseNumber(streetFrom, houseNumberFrom, street, text, catalog);
        case _ =>
          o := Step(handler, text, catalog, roster, pick);
      }
      handler := o.next;
      reply := o.reply;
    }
  }

  /** Delivering two runs of texts one after the other is one run. */
  lemma {:induction false} RunAppend(s: State, xs: seq<string>, ys: seq<string>, ps: seq<nat>, qs: seq<nat>,
                                     catalog: seq<Row>, roster: seq<Row>)
    requires |ps| == |xs| && ValidPicks(roster, ps)
    requires |qs| == |ys| && ValidPicks(roster, qs)
    ensures ValidPicks(roster, ps + qs)
    ensures var first := Run(s, xs, ps, catalog, roster);
      var second := Run(first.0, ys, qs, catalog, roster);
      Run(s, xs + ys, ps + qs, catalog, roster) == (second.0, first.1 + second.1)
    decreases |xs|
  {
    assert forall i :: 0 <= i < |ps + qs| ==> (ps + qs)[i] == if i < |ps| then ps[i] else qs[i - |ps|];
    if xs != [] {
      assert (xs + ys)[0] == xs[0] && (ps + qs)[0] == ps[0];
      assert (xs + ys)[1..] == xs[1..] + ys;
      assert (ps + qs)[1..] == ps[1..] + qs;
      var o := Step(s, xs[0], catalog, roster, ps[0]);
      assert forall i :: 0 <= i < |ps[1..]| ==> ps[1..][i] == ps[i + 1];
      RunAppend(o.next, xs[1..], ys, ps[1..], qs, catalog, roster);
      var first := Run(o.next, xs[1..], ps[1..], catalog, roster);
      var second := Run(first.0, ys, qs, catalog, roster);
      assert [o.reply] + (first.1 + second.1) == ([o.reply] + first.1) + second.1;
    } else {
      assert xs + ys == ys && ps + qs == qs;
      assert [] + Run(s, ys, qs, catalog, roster).1 == Run(s, ys, qs, catalog, roster).1;
    }
  }

  /** Delivering one text. */
  lemma RunOne(s: State, text: string, pick: nat, catalog: seq<Row>, roster: seq<Row>)
    requires ValidPick(roster, pick)
    ensures ValidPicks(roster, [pick])
    ensures var o := Step(s, text, catalog, roster, pick);
      Run(s, [text], [pick], catalog, roster) == (o.next, [o.reply])
  {
    var o := Step(s, text, catalog, roster, pick);
    assert [text][1..] == [] && [pick][1..] == [];
    assert [o.reply] + [] == [o.reply];
  }

  /** Delivering one text and then the rest. */
  lemma RunCons(s: State, text: string, rest: seq<string>, pick: nat, picks: seq<nat>,
                catalog: seq<Row>, roster: seq<Row>)
    requires ValidPick(roster, pick)
    requires |picks| == |rest| && ValidPicks(roster, picks)
    ensures ValidPicks(roster, [pick] + picks)
    ensures var o := Step(s, text, catalog, roster, pick);
      var after := Run(o.next, rest, picks, catalog, roster);
      Run(s, [text] + rest, [pick] + picks, catalog, roster) == (after.0, [o.reply] + after.1)
  {
    assert forall i :: 0 < i < |[pick] + picks| ==> ([pick] + picks)[i] == picks[i - 1];
    assert ([text] + rest)[1..] == rest;
    assert ([pick] + picks)[1..] == picks;
  }

  /** The three address steps after the greeting accept any texts, store each
      one and forward what was gathered before unchanged; no driver index is
      consulted. */
  lemma AddressSteps(streetFrom: string, houseNumberFrom: string, street: string, picks: seq<nat>,
                     catalog: seq<Row>, roster: seq<Row>)
    requires |picks| == 3 && ValidPicks(roster, picks)
    ensures Run(AwaitingStreetFrom, [streetFrom, houseNumberFrom, street], picks, catalog, roster)
      == (AwaitingHouseNumber(streetFrom, houseNumberFrom, street),
          [AskHouseNumberFrom(streetFrom), AskStreet, AskHouseNumber(street)])
  {
    var s1 := AwaitingHouseNumberFrom(streetFrom);
    var s2 := AwaitingStreet(streetFrom, houseNumberFrom);
    assert picks == [picks[0]] + ([picks[1]] + [picks[2]]);
    assert [picks[1]] + [picks[2]] == picks[1..];
    RunOne(s2, street, picks[2], catalog, roster);
    RunCons(s1, houseNumberFrom, [street], picks[1], [picks[2]], catalog, roster);
    assert [houseNumberFrom] + [street] == [houseNumberFrom, street];
    assert [AskStreet] + [AskHouseNumber(street)] == [AskStreet, AskHouseNumber(street)];
    assert Run(s1, [houseNumberFrom, street], picks[1..], catalog, roster)
      == (AwaitingHouseNumber(streetFrom, houseNumberFrom, street), [AskStreet, AskHouseNumber(street)]);
    RunCons(AwaitingStreetFrom, streetFrom, [houseNumberFrom, street], picks[0], picks[1..], catalog, roster);
    assert [streetFrom] + [houseNumberFrom, street] == [streetFrom, houseNumberFrom, street];
    assert [AskHouseNumberFrom(streetFrom)] + [AskStreet, AskHouseNumber(street)]
      == [AskHouseNumberFrom(streetFrom), AskStreet, AskHouseNumber(street)];
  }

  /** The destination step: it waits for the car type exactly when the street
      is found, with the district of the first data row that matches and the
      three prices of that district; when not found or on an error it ends
      the flow with the corresponding message. */
  lemma LookupStep(streetFrom: string, houseNumberFrom: string, street: string, houseNumber: string,
                   catalog: seq<Row>, roster: seq<Row>, pick: nat)
    requires ValidPick(roster, pick)
    ensures var o := Step(AwaitingHouseNumber(streetFrom, houseNumberFrom, street), houseNumber,
                          catalog, roster, pick);
      && (o.next.AwaitingCarType? <==> FindDistrict(catalog, street).Found?)
      && (o.next.AwaitingCarType? ==> exists i ::
            && 1 <= i < |catalog| && Matches(catalog[i], street)
            && (forall j :: 1 <= j < i ==> |catalog[j]| == 3 && !Matches(catalog[j], street))
            && o.next.district == catalog[i][0]
            && o.reply == TripQuote(streetFrom, houseNumberFrom, catalog[i][2], houseNumber,
                                    catalog[i][0], QuoteFor(catalog[i][0])))
      && (FindDistrict(catalog, street) == NotFound ==> o == Outcome(Done, StreetNotFound))
      && (FindDistrict(catalog, street) == Malformed ==> o == Outcome(Done, Failure))
  {
    if FindDistrict(catalog, street).Found? {
      FindDistrictFound(catalog, street);
    }
  }

  /** The car-type step waits for the confirmation with the lower-cased text
      and a price that is the announced price of the chosen class. */
  lemma CarTypeStepPrice(district: string, text: string, catalog: seq<Row>, roster: seq<Row>, pick: nat)
    requires ValidPick(roster, pick)
    ensures var o := Step(AwaitingCarType(district), text, catalog, roster, pick);
      var q := QuoteFor(district);
      && o.next.AwaitingConfirmation? && o.next.district == district && o.next.carType == Lower(text)
      && o.reply == TierPrice(Lower(text), o.next.price)
      && (Lower(text) == Label(Comfort) ==> o.next.price == q.comfort)
      && (Lower(text) == Label(Business) ==> o.next.price == q.business)
      && (Lower(text) != Label(Comfort) && Lower(text) != Label(Business) ==> o.next.price == q.standard)
  {
  }

  /** The confirmation step: going back (in any casing) waits for the car type
      in the same district; every other text ends the flow, confirming with
      a driver row of the roster, or the no-drivers message when the roster
      has only its header, the error message when the roster has no header
      or the picked row is not four fields wide, and anything unrecognised
      with the clarification. */
  lemma ConfirmationOutcomes(district: string, carType: string, price: nat, text: string,
                             catalog: seq<Row>, roster: seq<Row>, pick: nat)
    requires ValidPick(roster, pick)
    ensures var o := Step(AwaitingConfirmation(district, carType, price), text, catalog, roster, pick);
      && (Lower(text) == BackWord ==> o == Outcome(AwaitingCarType(district), ChooseCarType))
      && (Lower(text) != BackWord ==> o.next == Done)
      && (Lower(text) != BackWord && Lower(text) != ConfirmWord ==> o.reply == UnrecognisedChoice)
      && (Lower(text) == ConfirmWord ==>
            && (o.reply == NoDriversAvailable <==> |roster| == 1)
            && (o.reply == Failure <==> (|roster| == 0 || (|roster| > 1 && |roster[pick + 1]| != 4)))
            && (o.reply.DriverOnTheWay? <==> (|roster| > 1 && |roster[pick + 1]| == 4))
            && (o.reply.DriverOnTheWay? ==>
                  roster[pick + 1] == [o.reply.color, o.reply.company, o.reply.model, o.reply.driverId])
            && (o.reply.DriverOnTheWay? ==>
                  exists i :: 1 <= i < |roster| &&
                    roster[i] == [o.reply.color, o.reply.company, o.reply.model, o.reply.driverId]))
  {
  }

  /** What a waiting handler holds is coherent: a confirmation carries a
      lower-cased car type and the price of that car type in its district. */
  predicate Consistent(s: State)
  {
    s.AwaitingConfirmation? ==> IsLower(s.carType) && s.price == Price(s.district, s.carType)
  }

  lemma StepPreservesConsistent(s: State, text: string, catalog: seq<Row>, roster: seq<Row>, pick: nat)
    requires ValidPick(roster, pick)
    requires Consistent(s)
    ensures Consistent(Step(s, text, catalog, roster, pick).next)
  {
  }

  lemma {:induction false} RunPreservesConsistent(s: State, texts: seq<string>, picks: seq<nat>,
                                                  catalog: seq<Row>, roster: seq<Row>)
    requires |picks| == |texts| && ValidPicks(roster, picks)
    requires Consistent(s)
    ensures Consistent(Run(s, texts, picks, catalog, roster).0)
    decreases |texts|
  {
    if texts != [] {
      StepPreservesConsistent(s, texts[0], catalog, roster, picks[0]);
      RunPreservesConsistent(Step(s, texts[0], catalog, roster, picks[0]).next, texts[1..], picks[1..],
                             catalog, roster);
    }
  }

  /** Whatever texts arrive after `/start`, a pending confirmation carries one
      of the three prices announced for its district. */
  lemma ConfirmedPriceWasAdvertised(texts: seq<string>, picks: seq<nat>, catalog: seq<Row>, roster: seq<Row>)
    requires |picks| == |texts| && ValidPicks(roster, picks)
    ensures var s := Run(Done, texts, picks, catalog, roster).0;
      s.AwaitingConfirmation? ==>
        var q := QuoteFor(s.district);
        s.price == q.standard || s.price == q.comfort || s.price == q.business
  {
    RunPreservesConsistent(Done, texts, picks, catalog, roster);
  }

  /** Going back from a confirmation and choosing the same car type again (in
      any casing) returns to exactly the same confirmation, price included. */
  lemma BackThenSameTier(s: State, back: string, again: string, picks: seq<nat>,
                         catalog: seq<Row>, roster: seq<Row>)
    requires |picks| == 2 && ValidPicks(roster, picks)
    requires s.AwaitingConfirmation? && Consistent(s)
    requires Lower(back) == BackWord && Lower(again) == s.carType
    ensures Run(s, [back, again], picks, catalog, roster) == (s, [ChooseCarType, TierPrice(s.carType, s.price)])
  {
    var waiting := AwaitingCarType(s.district);
    assert Step(s, back, catalog, roster, picks[0]) == Outcome(waiting, ChooseCarType);
    assert Step(waiting, again, catalog, roster, picks[1]) == Outcome(s, TierPrice(s.carType, s.price));
    RunOne(waiting, again, picks[1], catalog, roster);
    RunCons(s, back, [again], picks[0], [picks[1]], catalog, roster);
    assert [back] + [again] == [back, again];
    assert [picks[0]] + [picks[1]] == picks;
    assert [ChooseCarType] + [TierPrice(s.carType, s.price)] == [ChooseCarType, TierPrice(s.carType, s.price)];
  }

  /** With no handler registered, texts other than `/start` get no reply and
      leave no handler registered, however many arrive: a flow that ended
      (after a failed lookup, an error, an unrecognised choice or a
      confirmation) cannot be resumed except by starting over. */
  lemma {:induction false} DoneIsQuiet(texts: seq<string>, picks: seq<nat>, catalog: seq<Row>, roster: seq<Row>)
    requires |picks| == |texts| && ValidPicks(roster, picks)
    requires forall i :: 0 <= i < |texts| ==> !IsStartCommand(texts[i])
    ensures Run(Done, texts, picks, catalog, roster).0 == Done
    ensures forall i :: 0 <= i < |texts| ==> Run(Done, texts, picks, catalog, roster).1[i] == Silent
    decreases |texts|
  {
    if texts != [] {
      DoneIsQuiet(texts[1..], picks[1..], catalog, roster);
      var rest := Run(Done, texts[1..], picks[1..], catalog, roster);
      assert Run(Done, texts, picks, catalog, roster).1 == [Silent] + rest.1;
    }
  }

  /** The order up to the car-type keyboard: a `/start` command (the bare
      `/start` is one, by `StartCommandsAccepted`), the origin street and
      house number, a destination street that the catalogue knows, and its
      house number produce the greeting, the three prompts and the trip
      quote with the three prices of the destination's district. */
  lemma OrderReachesCarType(start: string, streetFrom: string, houseNumberFrom: string, street: string,
                            houseNumber: string, picks: seq<nat>, catalog: seq<Row>, roster: seq<Row>)
    requires CommandIsStart(start)
    requires |picks| == 5 && ValidPicks(roster, picks)
    requires FindDistrict(catalog, street).Found?
    ensures var found := FindDistrict(catalog, street);
      Run(Done, [start, streetFrom, houseNumberFrom, street, houseNumber], picks, catalog, roster)
      == (AwaitingCarType(found.district),
          [AskStreetFrom, AskHouseNumberFrom(streetFrom), AskStreet, AskHouseNumber(street),
           TripQuote(streetFrom, houseNumberFrom, found.streetName, houseNumber, found.district,
                     QuoteFor(found.district))])
  {
    StartStep(start, catalog, roster, picks[0]);
    var found := FindDistrict(catalog, street);
    var address := [streetFrom, houseNumberFrom, street];
    var addressReplies := [AskHouseNumberFrom(streetFrom), AskStreet, AskHouseNumber(street)];
    var quote := TripQuote(streetFrom, houseNumberFrom, found.streetName, houseNumber, found.district,
                           QuoteFor(found.district));
    var addressPicks := picks[1..4];
    assert picks == [picks[0]] + (addressPicks + [picks[4]]);
    assert forall i :: 0 <= i < 3 ==> addressPicks[i] == picks[i + 1];
    AddressSteps(streetFrom, houseNumberFrom, street, addressPicks, catalog, roster);
    RunOne(AwaitingHouseNumber(streetFrom, houseNumberFrom, street), houseNumber, picks[4], catalog, roster);
    RunAppend(AwaitingStreetFrom, address, [houseNumber], addressPicks, [picks[4]], catalog, roster);
    RunCons(Done, start, address + [houseNumber], picks[0], addressPicks + [picks[4]], catalog, roster);
    assert [start] + (address + [houseNumber]) == [start, streetFrom, houseNumberFrom, street, houseNumber];
    assert [AskStreetFrom] + (addressReplies + [quote])
      == [AskStreetFrom, AskHouseNumberFrom(streetFrom), AskStreet, AskHouseNumber(street), quote];
  }

  /** The end of an order: a car-type text followed by a reply that
      lower-cases to the confirmation word (the confirm button, by
      `Keyboard.ButtonsSelectBranches`) ends the flow with the announcement of the roster row picked
      while the confirmation is handled. */
  lemma OrderConfirmed(district: string, carType: string, confirm: string, picks: seq<nat>,
                        catalog: seq<Row>, roster: seq<Row>)
    requires Lower(confirm) == ConfirmWord
    requires |picks| == 2 && ValidPicks(roster, picks)
    requires |roster| > 1 && |roster[picks[1] + 1]| == 4
    ensures var row := roster[picks[1] + 1];
      Run(AwaitingCarType(district), [carType, confirm], picks, catalog, roster)
      == (Done, [TierPrice(Lower(carType), Price(district, Lower(carType))),
                 DriverOnTheWay(row[0], row[1], row[2], row[3])])
  {
    var row := roster[picks[1] + 1];
    var carTypeLower := Lower(carType);
    var confirming := AwaitingConfirmation(district, carTypeLower, Price(district, carTypeLower));
    var tierPrice := TierPrice(carTypeLower, Price(district, carTypeLower));
    assert Step(AwaitingCarType(district), carType, catalog, roster, picks[0]) == Outcome(confirming, tierPrice);
    var driver := DriverOnTheWay(row[0], row[1], row[2], row[3]);
    assert ConfirmationStep(district, confirm, roster, picks[1]) == Outcome(Done, driver);
    RunOne(confirming, confirm, picks[1], catalog, roster);
    RunCons(AwaitingCarType(district), carType, [confirm], picks[0], [picks[1]], catalog, roster);
    assert [carType] + [confirm] == [carType, confirm];
    assert [picks[0]] + [picks[1]] == picks;
    assert [tierPrice] + [driver] == [tierPrice, driver];
  }

  /** The entry step: with no handler registered, exactly the texts from which
      the bot library extracts the command `start` get the greeting and
      register the origin-street handler. */
  lemma StartStep(text: string, catalog: seq<Row>, roster: seq<Row>, pick: nat)
    requires ValidPick(roster, pick)
    ensures Step(Done, text, catalog, roster, pick).next == AwaitingStreetFrom <==> CommandIsStart(text)
    ensures CommandIsStart(text) ==> Step(Done, text, catalog, roster, pick) == Outcome(AwaitingStreetFrom, AskStreetFrom)
    ensures !CommandIsStart(text) ==> Step(Done, text, catalog, roster, pick) == Outcome(Done, Silent)
  {
  }

  /** The bare command and the command addressed to a bot both pass the
      `/start` filter; a longer word that only begins with `/start` does not. */
  lemma StartCommandsAccepted()
    ensures CommandIsStart("/start")
    ensures CommandIsStart("/start@bot")
    ensures !CommandIsStart("/started")
  {
    assert IsStartCommand("/start");
    assert IsStartCommand("/start@bot");
    assert !IsStartCommand("/started");
  }
}
