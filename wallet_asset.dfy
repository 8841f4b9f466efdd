/**
 * The WalletAsset entity: one holding of the wallet, a mutable record whose
 * fields may each be null (here None) until they are set.
 */
module Assets {
  import opened Wrappers

  /** The value of a WalletAsset's fields at one moment. */
  datatype Holding = Holding(
    id: Option<int>,
    symbol: Option<string>,
    quantity: Option<real>,
    price: Option<real>,          // acquisition price
    latestPrice: Option<real>)    // last fetched market price

  class WalletAsset {
    var id: Option<int>
    var symbol: Option<string>
    var quantity: Option<real>
    var price: Option<real>
    var latestPrice: Option<real>

    function View(): Holding
      reads this
    {
      Holding(id, symbol, quantity, price, latestPrice)
    }

    /** The no-argument constructor the persistence layer uses: every field null. */
    constructor Empty()
      ensures View() == Holding(None, None, None, None, None)
    {
      id, symbol, quantity, price, latestPrice := None, None, None, None, None;
    }

    /** Stores each argument in its field, as given (note the argument order). */
    constructor (price: Option<real>, id: Option<int>, symbol: Option<string>,
                 quantity: Option<real>, latestPrice: Option<real>)
      ensures View() == Holding(id, symbol, quantity, price, latestPrice)
    {
      this.price := price;
      this.id := id;
      this.symbol := symbol;
      this.quantity := quantity;
      this.latestPrice := latestPrice;
    }

    function GetId(): Option<int> reads this { id }
    function GetSymbol(): Option<string> reads this { symbol }
    function GetQuantity(): Option<real> reads this { quantity }
    function GetPrice(): Option<real> reads this { price }
    function GetLatestPrice(): Option<real> reads this { latestPrice }

    method SetId(v: Option<int>)
      modifies this
      ensures GetId() == v
      ensures View() == old(View()).(id := v)
    {
      id := v;
    }

    method SetSymbol(v: Option<string>)
      modifies this
      ensures GetSymbol() == v
      ensures View() == old(View()).(symbol := v)
    {
      symbol := v;
    }

    method SetQuantity(v: Option<real>)
      modifies this
      ensures GetQuantity() == v
      ensures View() == old(View()).(quantity := v)
    {
      quantity := v;
    }

    method SetPrice(v: Option<real>)
      modifies this
      ensures GetPrice() == v
      ensures View() == old(View()).(price := v)
    {
      price := v;
    }

    method SetLatestPrice(v: Option<real>)
      modifies this
      ensures GetLatestPrice() == v
      ensures View() == old(View()).(latestPrice := v)
    {
      latestPrice := v;
    }
  }

  /** The values of a list of assets, in list order. */
  function Snapshot(assets: seq<WalletAsset>): seq<Holding>
    reads assets
  {
    seq(|assets|, i reads assets requires 0 <= i < |assets| => assets[i].View())
  }
}
