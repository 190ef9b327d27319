/**
 * The asset-type rule applied when a holding is added: fund ("FNB") first,
 * then bonds ("Obligations"), otherwise equities ("Actions").
 */
module AssetClass {
  import opened Text

  /** `info.get(key, "")` on the quote provider's info dictionary. */
  function Field(info: map<string, string>, key: string): string
  {
    if key in info then info[key] else ""
  }

  predicate IsFund(quoteType: string, longName: string)
  {
    Contains(Upper(quoteType), "ETF") || Contains(Upper(longName), "ETF")
  }

  predicate IsBond(longName: string, sector: string)
  {
    sector == "Financial Services" || Contains(Upper(longName), "BOND")
  }

  /** The priority-ordered classification: each outcome exactly when its rule is the first to fire. */
  function Classify(quoteType: string, longName: string, sector: string): (t: string)
    ensures t == "FNB" || t == "Obligations" || t == "Actions"
    ensures t == "FNB" <==> IsFund(quoteType, longName)
    ensures t == "Obligations" <==> !IsFund(quoteType, longName) && IsBond(longName, sector)
    ensures t == "Actions" <==> !IsFund(quoteType, longName) && !IsBond(longName, sector)
  {
    if IsFund(quoteType, longName) then "FNB"
    else if IsBond(longName, sector) then "Obligations"
    else "Actions"
  }

  /** The classification of a quote from its "quoteType", "longName" and "sector" fields. */
  function ClassifyInfo(info: map<string, string>): (t: string)
    ensures t == "FNB" || t == "Obligations" || t == "Actions"
    ensures t == "FNB" <==> IsFund(Field(info, "quoteType"), Field(info, "longName"))
  {
    Classify(Field(info, "quoteType"), Field(info, "longName"), Field(info, "sector"))
  }

  /**
   * The "ETF" and "BOND" tests ignore ASCII letter case: classifying
   * upper-cased names gives the same answer. The sector is compared
   * exactly, so it is left as it is.
   */
  lemma ClassifyIgnoresNameCase(quoteType: string, longName: string, sector: string)
    ensures Classify(Upper(quoteType), Upper(longName), sector) == Classify(quoteType, longName, sector)
  {
    UpperIdempotent(quoteType);
    UpperIdempotent(longName);
  }

  /** A long name mentioning both a fund and a bond (say "iShares Core Bond ETF") is a fund. */
  lemma FundBeforeBond(quoteType: string, longName: string, sector: string)
    requires exists i :: OccursAt(Upper(longName), "ETF", i)
    ensures Classify(quoteType, longName, sector) == "FNB"
  {
    ContainsIff(Upper(longName), "ETF");
  }

  /** A quote of the "Financial Services" sector that is not a fund is classed as a bond. */
  lemma FinancialServicesIsBond(info: map<string, string>)
    requires "sector" in info && info["sector"] == "Financial Services"
    requires !IsFund(Field(info, "quoteType"), Field(info, "longName"))
    ensures ClassifyInfo(info) == "Obligations"
  {
  }

  /** A quote whose info has none of the three fields, whatever else it holds, is an equity. */
  lemma EmptyInfoIsEquity(info: map<string, string>)
    requires "quoteType" !in info && "longName" !in info && "sector" !in info
    ensures ClassifyInfo(info) == "Actions"
  {
    assert !Contains("", "ETF");
    assert !Contains("", "BOND");
  }
}
