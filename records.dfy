/**
 * The record every stage of the extractor passes along: the twelve keys of
 * the dictionary built by `parse_entity`, each of which may be `None`.
 */
module Records {
  import opened Options

  datatype Record = Record(
    index: Option<int>,
    entityNumber: Option<string>,
    businessName: Option<string>,
    dbaName: Option<string>,
    address: Option<string>,
    zipcode: Option<string>,
    licenseNumber: Option<string>,
    status: Option<string>,
    alcoholType: Option<string>,
    minutesDate: Option<string>,
    applicationExpirationDate: Option<string>,
    fileName: Option<string>)

  /** The record with every key `None`. */
  const Unset := Record(None, None, None, None, None, None, None, None, None, None, None, None)

  const AllAlcoholic := "All Alcoholic Beverages"
  const WinesAndMalt := "Wines and Malt Beverages"
  const Deferred := "Deferred"

  /** The allow-list applied when records are kept. */
  predicate AllowedType(t: Option<string>) {
    t == Some(WinesAndMalt) || t == Some(AllAlcoholic)
  }
}
