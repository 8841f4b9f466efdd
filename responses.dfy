/**
 * CoinCap HTTP replies after JSON decoding. The HTTP transport and the JSON
 * decoder are not modelled: each operation receives the decoded reply as an
 * input, with one constructor per shape the Java code tells apart (a value
 * read with Map.get and cast to String is missing, a string, or something
 * else; a number read with new BigDecimal(String) parses or does not).
 */
module Responses {
  import opened Wrappers

  /**
   * The outcome of one HTTP GET. NoReply: the request threw (network error,
   * error status, undecodable body). Reply(None): the body decoded to null,
   * or, where the body is read as a String and decoded afterwards, it is not
   * a JSON object.
   */
  datatype Reply<B> = NoReply | Reply(body: Option<B>)

  /** A member read with Map.get and cast to String. */
  datatype Field = Absent | Str(s: string) | NotAString

  /** The "priceUsd" member of a price reply's "data" object. */
  datatype PriceUsd =
    | PriceAbsent               // missing or null: new BigDecimal(null) throws
    | PriceNotAString           // the String cast throws
    | PriceNotANumber           // new BigDecimal(String) throws NumberFormatException
    | PriceDecimal(value: real) // the exact decimal the string denotes

  /** The value of a price reply's "data" member. */
  datatype PriceData = DataNull | DataNotAnObject | DataObject(priceUsd: PriceUsd)

  /** A price reply's body; data == None when it has no "data" key. */
  datatype PriceBody = PriceBody(data: Option<PriceData>)

  /** One element of the asset listing's "data" array. */
  datatype Entry = Entry(symbol: Field, id: Field) | NotAnObject

  /** The value of the asset listing's "data" member. */
  datatype Listing = ListingNull | NotAList | Entries(items: seq<Entry>)

  /** The asset listing's body; data == None when it has no "data" key. */
  datatype ListingBody = ListingBody(data: Option<Listing>)

  /** The exact price a decoded "data" value quotes, when it quotes one. */
  function QuotedPrice(data: PriceData): Option<real> {
    match data
    case DataObject(PriceDecimal(v)) => Some(v)
    case _ => None
  }
}
