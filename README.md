# Personal-finance page: verified model of its calculation core

The page `app1.py` is a Streamlit form with five tabs. Beneath the widgets and
the market-data calls sit a few pieces of exact logic, modelled here in Dafny
over exact `real` numbers:

- **Compound-interest projector** (`calculer_capital`), module `Compounding`.
  Each year, the yearly amount is added to the running capital. The sum then
  grows by `taux / 100 * 1.2` for "Actions" and `taux / 100 * 0.8` for any
  other type. The year and the capital rounded to cents are emitted. The
  running capital itself is never rounded. `ProjectCapital` is the loop.
  `Capital` is the recurrence it is proved against. `GeometricSum` is an
  independent reference for it: the direct sum `g + g^2 + ... + g^n`, whose
  closed form `S(n) * (g - 1) == g * (g^n - 1)` is also proved (giving
  `g * (g^n - 1) / (g - 1)` for a non-zero rate).
- **Risk estimator guard** (`calculer_risque`), module `Risk`. It computes
  simple returns the way `pct_change().dropna()` does. Both outputs are "N/A"
  when fewer than two returns exist or when the history cannot be processed.
  Otherwise both are numbers. The two statistics are parameters of
  `EstimateRisk`.
- **Asset-type classifier** (the rule applied when a holding is added), module
  `AssetClass`. "ETF" in the quote type or the long name gives "FNB". Failing
  that, the "Financial Services" sector or "BOND" in the long name gives
  "Obligations". Anything else is "Actions".
- **Session state** (`st.session_state`), module `Session`. The class
  `SessionState` holds the portfolio table and the watchlist. Its methods are
  the add form, the refresh button and the watchlist form. The derived
  columns `Valeur Totale` and `Profit/Perte` are functions of a row.
- Module `Text` models the Python string operations these pieces use:
  `strip()`, `upper()` and `sub in s`.

Quote lookups are modelled as an input. A `Market` maps each symbol to a
`Listing` (the info fields and the closing prices). A symbol missing from the
map stands for a lookup that raises. An empty price list stands for an empty
history.

Two details of the code the model keeps:

- `calculer_capital` rejects nothing. With `duree < 1` it returns an empty
  table, and the model does the same. Only the form enforces `duree >= 1`.
- The watchlist stores `symbole.upper()` without stripping it. The portfolio
  stores `strip().upper()`.

## Model

| member | source | states |
|---|---|---|
| Compounding.Multiplier | app1.py:17 | 1.2 for the type "Actions", 0.8 for every other type string |
| Compounding.Growth | app1.py:17-18 | the yearly factor `1 + taux / 100 * multiplier`, at least 1 for a non-negative rate |
| Compounding.Capital | app1.py:14-18 | the unrounded running capital: 0 before the first year, then `(previous + montant) * growth` each year |
| Compounding.ProjectCapital | app1.py:13-20 | returns exactly `max(duree, 0)` rows; row k has year k+1 and the capital `Capital(k+1)` of the unrounded recurrence started at 0, rounded to cents; i.e. the table is `Projection(...)` |
| Compounding.RoundCents | app1.py:19 | the emitted value is a whole number of cents within half a cent of the exact capital (strictly within unless the capital is a tie), an even number of cents on a tie, and non-negative for a non-negative capital |
| Compounding.RoundCentsTieExample | app1.py:19 | ties go to even: 0.125 rounds to 0.12 and 0.135 to 0.14 |
| Compounding.RoundCentsMonotone | app1.py:19 | rounding to cents preserves the order of two amounts |
| Compounding.CapitalGrows | app1.py:14-18 | with contribution and rate at least 0, each year's capital is at least 0 and at least the previous year's |
| Compounding.CapitalMonotone | app1.py:16-18 | with contribution and rate at least 0, the capital after j years is at most the capital after k years, for j <= k |
| Compounding.ProjectionFinalIsMaximum | app1.py:68-79 | under the form's bounds (amount and rate at least 0, at least one year), every emitted capital is at least 0, the column is non-decreasing, and the last row, shown as the final capital, is the largest |
| Compounding.GeometricSumStep | app1.py:18 | the direct sum obeys the same step as the capital: `S(n) = g * S(n-1) + g` |
| Compounding.CapitalClosedForm | app1.py:14-18 | the recurrence equals the direct sum `montant * (g + g^2 + ... + g^n)`, with `g = 1 + taux/100 * multiplier` |
| Compounding.GeometricSumClosedForm | app1.py:14-18 | the direct sum in closed form: `(g + ... + g^n) * (g - 1) == g * (g^n - 1)` |
| Compounding.CapitalGeometric | app1.py:14-18 | the capital after n years satisfies `Capital(n) * (g - 1) == montant * g * (g^n - 1)` |
| Compounding.EquityExample | app1.py:17-19 | 1000 a year at 5% as "Actions" (factor 1.06) gives the rows (1, 1060.00) and (2, 2183.60) |
| Compounding.OtherTypeExample | app1.py:17-19 | every type string other than "Actions" uses the 0.8 multiplier: 1000 at 5% gives (1, 1040.00) and (2, 2121.60) |
| Risk.StepReturn | app1.py:25 | one pair of prices gives at most one return; it is dropped exactly for 0 to 0 (NaN), is an infinity of the sign of the new price when the old one is 0, and is `cur / prev - 1` otherwise |
| Risk.SimpleReturns | app1.py:25 | a history of at most one price has no returns; otherwise there are at most `len - 1` returns (NaN ratios are dropped) |
| Risk.ReturnsAppend | app1.py:25 | appending a price appends exactly the return of the last pair |
| Risk.ZeroPriceExample | app1.py:25 | the prices 0, 0, 2, 3 give the returns +infinity and 0.5 (0 to 0 is dropped) |
| Risk.NonZeroReturns | app1.py:25 | with no zero price there is exactly one return per consecutive pair, `(p[i+1] - p[i]) / p[i]` |
| Risk.EstimateRisk | app1.py:23-32 | the two outputs are both "N/A" or both numbers; a history that raises gives ("N/A", "N/A"); otherwise "N/A" exactly when there are fewer than 2 returns, and the numbers are the two statistics of the returns |
| Risk.ShortHistoryIsNA | app1.py:25-27 | a history of one or two prices gives ("N/A", "N/A") |
| Risk.ConstantHistory | app1.py:25-30 | a constant non-zero history of three or more prices gives numbers, computed from all-zero returns |
| AssetClass.Classify | app1.py:105-110 | the result is one of "FNB", "Obligations", "Actions"; "FNB" exactly when "ETF" is in the upper-cased quote type or long name; "Obligations" exactly when not a fund and the sector is "Financial Services" or "BOND" is in the upper-cased long name; "Actions" exactly when neither rule holds |
| AssetClass.Field | app1.py:104-107 | a field of the info dictionary, "" when the key is absent |
| AssetClass.ClassifyInfo | app1.py:104-110 | classifies a quote from its "quoteType", "longName" and "sector" fields; always one of the three classes, "FNB" exactly when its quote type or long name contains "ETF" |
| AssetClass.ClassifyIgnoresNameCase | app1.py:105-107 | upper-casing the quote type and long name first does not change the class |
| AssetClass.FundBeforeBond | app1.py:105-107 | "ETF" anywhere in the upper-cased long name makes the holding "FNB", whatever the sector |
| AssetClass.FinancialServicesIsBond | app1.py:104-108 | a non-fund quote whose sector is exactly "Financial Services" is "Obligations" |
| AssetClass.EmptyInfoIsEquity | app1.py:104-110 | any info dictionary lacking all three of "quoteType", "longName" and "sector" (each read with default ""), whatever other keys it has, is "Actions" |
| Text.Upper | app1.py:96 | same length; each ASCII lower-case letter is replaced by its upper-case form; no lower-case ASCII letter remains |
| Text.UpperIdempotent | app1.py:96 | upper-casing twice is upper-casing once |
| Text.Strip | app1.py:96 | the result is a contiguous piece of the input with only whitespace cut away on either side, and it neither starts nor ends with whitespace |
| Text.StripIdempotent | app1.py:96 | stripping twice is stripping once |
| Text.Contains | app1.py:105-107 | the substring test `sub in s`, searched left to right |
| Text.ContainsIff | app1.py:105-107 | the substring test holds exactly when the pattern occurs at some index of the string |
| Session.Symbol | app1.py:96 | `strip().upper()` of the search string: as long as the stripped string, no lower-case ASCII letter, no whitespace at either end |
| Session.LastClose | app1.py:99-102 | the last close of a lookup, or nothing when the lookup raises (symbol absent) or the history is empty |
| Session.NewHolding | app1.py:96-111 | it fails exactly when the lookup of `strip().upper()` of the input raises (LookupFailed) or returns an empty history (NoData); otherwise the row has that symbol, the given quantity, the classified type, and purchase price = current price = last close |
| Session.AtCostHasNoProfit | app1.py:129-130 | a row whose purchase price equals its current price has Profit/Perte 0 and Valeur Totale = quantity * purchase price |
| Session.NewHoldingAtCost | app1.py:102-130 | a freshly added row has Profit/Perte 0 |
| Session.RefreshHolding | app1.py:122-124 | a refreshed row keeps asset, type, quantity and purchase price; its current value becomes the last close when the lookup returned data and is unchanged otherwise |
| Session.Refreshed | app1.py:120-126 | the table after a refresh: same length, row i is `RefreshHolding` of the old row i |
| Session.RefreshIdempotent | app1.py:120-126 | refreshing twice against the same quotes gives the same table as refreshing once |
| Session.TotalValue | app1.py:129 | the derived column Valeur Totale: quantity times current value |
| Session.ProfitLoss | app1.py:130 | the derived column Profit/Perte: current value less purchase price, times quantity |
| Session.ProfitLossIsGain | app1.py:129-130 | Profit/Perte = Valeur Totale - quantity * purchase price |
| Session.RefreshDerivedColumns | app1.py:120-130 | a refresh changes Profit/Perte by exactly the change in Valeur Totale, and changes neither column for a row whose lookup had no data |
| Session.SessionState.constructor | app1.py:87-137 | a new session has an empty portfolio and an empty watchlist |
| Session.SessionState.AddHolding | app1.py:94-115 | an empty search string does nothing; a successful lookup appends exactly the `NewHolding` row and leaves earlier rows unchanged; a failed one leaves the table as it was and reports the error; the watchlist is untouched; symbols stay upper-case and types stay among the three classes |
| Session.SessionState.RefreshPrices | app1.py:119-126 | the table keeps its length, and each row becomes `RefreshHolding` of its old value; the watchlist is untouched |
| Session.SessionState.AddToWatchlist | app1.py:139-142 | a non-empty symbol is appended upper-cased (not stripped, duplicates kept); an empty one changes nothing; the portfolio is untouched |

## Left out

- Streamlit widgets, tabs, forms, charts, the profile tab's fixed recommendation text, number formatting, the CSV export and the date footer: these are presentation only.
- The yfinance calls (`Ticker`, `.info`, `.history`) are network I/O through a foreign library. They are replaced by the `Market` input. Its modelled failure modes are "the lookup raises" and "the history is empty".
- The info dictionary is modelled as `map<string, string>`. A field holding a non-string value, such as `None`, would make `.upper()` raise. That case is not modelled.
- The numbers behind `calculer_risque` (standard deviation, `sqrt(252)`, `np.percentile`) are floating-point library numerics. `EstimateRisk` takes them as parameters.
- Risk.SimpleReturns: missing (NaN) prices, and pandas' forward fill of them inside `pct_change`, are not modelled. A history is a sequence of numbers or of entries that make pandas raise.
- Compounding.RoundCents: rounds the exact real value half to even. Python's `round` acts on the binary float nearest to the value, and that is not modelled.
- Text.Upper: changes only the ASCII letters. Python's `str.upper` also maps non-ASCII letters, some of them to several characters.
- The watchlist display loop (app1.py:144-163) and the information tab (app1.py:166-194) call `calculer_risque` on live quotes and display the results. Only the estimator itself is modelled.
- The derived columns are written into the session table on every render (app1.py:128-130), so they are recomputed from the rows each time. The model computes them as functions of a row. The stale values a newly concatenated row carries until the next render are not modelled.
- Pandas column dtypes and index handling in `pd.concat` and `.at` are not modelled. The table is a sequence of rows.
- Compounding.ProjectCapital: the default `type_invest="Actions"` is not modelled; the type is always passed, as in the page's only call (app1.py:75).
- The Monte Carlo simulator is not in `app1.py`. Nothing is modelled for it.
