/** The fare rules: a fixed base price per district and a multiplier per car
    class. Python computes `base * 1.2` in floating point; here every price is
    an exact number of tenths of a hryvnia, so `base * 1.2` is `base * 12`
    tenths. */
module Pricing {
  import opened Text

  /** The district fare table `prices_per_district`, in whole hryvnias. */
  const BasePrices: map<string, nat> := map[
    "Орджонікідзевський" := 100,
    "Дзержинський" := 150,
    "Червонозаводський" := 120,
    "Київський" := 130,
    "Жовтневий" := 140,
    "Фрунзенський" := 160,
    "Московський" := 170,
    "Комінтернівський" := 180,
    "Ленінський" := 190
  ]

  /** `prices_per_district.get(district, 0)`. */
  function BasePrice(district: string): (p: nat)
    ensures p <= 190
    ensures p == 0 <==> district !in BasePrices
    ensures district in BasePrices ==> 100 <= p
  {
    if district in BasePrices then BasePrices[district] else 0
  }

  /** The three car classes offered on the keyboard. */
  datatype Tier = Standard | Comfort | Business

  /** The keyboard label of each class. The labels are already lower case,
      so lower-casing a pressed button gives back its label. */
  function Label(t: Tier): (r: string)
    ensures IsLower(r)
  {
    var word := match t
      case Standard => "стандарт"
      case Comfort => "комфорт"
      case Business => "бізнес";
    assert forall i :: 0 <= i < |word| ==> LowerChar(word[i]) == word[i];
    LowerFixed(word);
    word
  }

  /** The class chosen by an already lower-cased car-type text: only the
      comfort and business labels select those classes, anything else
      (the standard label or unrecognised text) is priced as standard. */
  function TierOf(carType: string): (t: Tier)
    ensures t == Comfort <==> carType == Label(Comfort)
    ensures t == Business <==> carType == Label(Business)
    ensures t == Standard <==> carType != Label(Comfort) && carType != Label(Business)
  {
    if carType == "комфорт" then Comfort
    else if carType == "бізнес" then Business
    else Standard
  }

  /** Every keyboard label selects its own class. */
  lemma TierOfLabel(t: Tier)
    ensures TierOf(Label(t)) == t
  {
  }

  /** The price multiplier of a class, in tenths (1.0, 1.2, 1.4). */
  function Multiplier(t: Tier): (m: nat)
    ensures 10 <= m <= 14
  {
    match t
    case Standard => 10
    case Comfort => 12
    case Business => 14
  }

  /** The three prices announced once the destination is known, in tenths. */
  datatype Quote = Quote(standard: nat, comfort: nat, business: nat)

  /** The quote announced for a district: base, base * 1.2 and base * 1.4. */
  function QuoteFor(district: string): (q: Quote)
    ensures q.standard <= q.comfort <= q.business
    ensures q.standard == 10 * BasePrice(district)
    ensures 5 * q.comfort == 6 * q.standard && 5 * q.business == 7 * q.standard
  {
    var base := BasePrice(district);
    Quote(base * 10, base * 12, base * 14)
  }

  /** The price of a trip, in tenths: `base_price * price_multiplier`. It is
      always one of the three announced prices for the same district, the one
      belonging to the chosen class, and it is zero exactly when the district
      has no fare. */
  function Price(district: string, carType: string): (p: nat)
    ensures var q := QuoteFor(district);
      p == (match TierOf(carType)
            case Standard => q.standard
            case Comfort => q.comfort
            case Business => q.business)
    ensures p == 0 <==> district !in BasePrices
  {
    BasePrice(district) * Multiplier(TierOf(carType))
  }

  /** A district without a fare is free in every class. */
  lemma UnknownDistrictIsFree(district: string, carType: string)
    requires district !in BasePrices
    ensures Price(district, carType) == 0
    ensures QuoteFor(district) == Quote(0, 0, 0)
  {
  }
}
