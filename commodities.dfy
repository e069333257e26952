/**
 * The per-commodity model configuration: which data file to read and which
 * SARIMA orders to fit, chosen by an if/elif chain on the commodity name.
 */
module Commodities {

  import opened Wrappers

  /** Non-seasonal order (p, d, q). */
  datatype Order = Order(p: nat, d: nat, q: nat)

  /** Seasonal order (P, D, Q, s), s being the season length in months. */
  datatype SeasonalOrder = SeasonalOrder(p: nat, d: nat, q: nat, s: nat)

  datatype Config = Config(file: string, order: Order, seasonal: SeasonalOrder)

  /** Months per season: the seasonality is yearly. */
  const SeasonLength: nat := 12

  /** The commodities that have a model. */
  const Supported: set<string> := {"Gram Dal", "Sugar", "Wheat", "Gur", "Milk", "Tea", "Salt"}

  /** The commodity menu offered to the user, in its order. */
  const Menu: seq<string> := [
    "Gram Dal", "Sugar", "Gur", "Wheat", "Tea", "Milk", "Salt", "Atta", "Tur/Arhar Dal",
    "Urad Dal", "Moong Dal", "Masoor Dal", "Groundnut Oil", "Mustard Oil", "Vanaspati",
    "Sunflower Oil", "Soya Oil", "Palm Oil", "Rice", "Potato", "Onion", "Tomato"]

  /** A seasonal order that repeats the non-seasonal one with a yearly season. */
  function Yearly(o: Order): SeasonalOrder {
    SeasonalOrder(o.p, o.d, o.q, SeasonLength)
  }

  /**
   * The configuration of commodity `com`, or `None` when its model is still
   * in progress (no file is read and nothing is fitted then).
   */
  function Configure(com: string): (r: Option<Config>)
    ensures r.Some? <==> com in Supported
    ensures r.Some? ==> r.value.seasonal.s == 12
    ensures r.Some? ==> r.value.seasonal == Yearly(r.value.order)
  {
    if com == "Gram Dal" then Some(Config("Dal_Price.csv", Order(0, 1, 2), SeasonalOrder(0, 1, 2, 12)))
    else if com == "Sugar" then Some(Config("Chini.csv", Order(0, 1, 1), SeasonalOrder(0, 1, 1, 12)))
    else if com == "Wheat" then Some(Config("Wheat - Sheet1.csv", Order(1, 1, 0), SeasonalOrder(1, 1, 0, 12)))
    else if com == "Gur" then Some(Config("Gur.csv", Order(2, 1, 1), SeasonalOrder(2, 1, 1, 12)))
    else if com == "Milk" then Some(Config("Milk - Sheet1.csv", Order(2, 2, 2), SeasonalOrder(2, 2, 2, 12)))
    else if com == "Tea" then Some(Config("Tea - Sheet1.csv", Order(1, 1, 1), SeasonalOrder(1, 1, 1, 12)))
    else if com == "Salt" then Some(Config("Salt - Sheet1.csv", Order(0, 1, 1), SeasonalOrder(0, 1, 1, 12)))
    else None
  }

  /** Exactly the first seven menu entries have a model; the other fifteen
      are answered with "in progress". */
  lemma MenuSupport()
    ensures |Menu| == 22
    ensures forall i :: 0 <= i < |Menu| ==> (Configure(Menu[i]).Some? <==> i < 7)
  {
  }

  /** Each commodity reads its own data file. */
  lemma ConfiguredFilesDistinct(a: string, b: string)
    requires a in Supported && b in Supported && a != b
    ensures Configure(a).value.file != Configure(b).value.file
  {
  }

}
