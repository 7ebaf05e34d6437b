# Utilities dashboard reconciliation, in Dafny

A model of the billing reconciliation in the Streamlit script `dashboard.py`.
For one month and one building, the script reads three utility sheets
(electricity, water, effluent) and the month's "other info" sheet of named
council, solar and meter figures, and shows three levels of results:

- **Level 1, walk-away**: per utility, the tenant recoveries (the sheet's
  "TOTAL" rows) minus the council charges (exact-name lookups of the "Muni …"
  variables), key by key.
- **Level 2, solar savings**: the Value and Rand of every variable whose name
  contains "MOL Solar".
- **Level 3, overcharge check**: for electricity, the "MOL Muni" sums minus
  the municipal subtotals; for water and effluent, the sheet's "COUNCIL"
  rows minus the council variable.

The script's inline blocks are lifted into pure functions over sequences of
rows. Amounts are mathematical reals.

Modules:

- `Wrappers` holds the `Option` type.
- `Text` holds literal, case-sensitive substring matching.
- `Tables` holds the row types, filtered sums and the exact-name lookup.
- `Format` holds `fmt`.
- `Dashboard` holds the three levels and the whole report.
- `Scenarios` holds worked examples on small sheets.

A failed lookup (`.values[0]` on an empty selection raises, and the page
stops) is the `None` of an `Option`. It propagates, so `Reconcile` fails
exactly when one of the eight required variable names is missing.

The code calls `str.contains("TOTAL", na=False)`, which is case-sensitive.
The model follows the code, and `Scenarios.LowerCaseTotalExample` shows a
"grand total" row being ignored.

## Model

| member | source | states |
|---|---|---|
| Tables.TenantRecoveries | dashboard.py:14-15 | Recoveries are 0 when no row's tenant name is present and contains "TOTAL". |
| Tables.MarkedSumInsert | dashboard.py:14-15 | A row adds its column to a marker sum exactly when its tenant name is non-null and contains the marker; otherwise it changes nothing, wherever it sits. |
| Tables.TenantRecoveriesPermutation | dashboard.py:14-15 | Recoveries depend only on the multiset of rows, not on their order. |
| Tables.FilterSumPermutation | dashboard.py:15 | A pandas filtered column sum is invariant under any reordering of the rows. |
| Tables.FilterSumAppend | dashboard.py:15 | A filtered column sum over two stacked tables is the sum of the two tables' sums. |
| Tables.FilterSumInsert | dashboard.py:15 | Inserting a row adds its value if the filter keeps it and nothing otherwise. |
| Tables.FilterSum | dashboard.py:15 | A filtered sum is 0 when the filter keeps no row, and non-negative when every kept value is. |
| Tables.VariableSum | dashboard.py:130-131 | A substring sum over variable names is 0, not an error, when no name contains the pattern. |
| Tables.VariableSumInsert | dashboard.py:130-131 | A row counts in a substring sum exactly when its variable name contains the pattern. |
| Tables.CouncilValue | dashboard.py:17-18 | A lookup fails exactly when no row's variable equals the name; there is no zero default. |
| Tables.CouncilValueAt | dashboard.py:17-18 | The lookup returns the chosen column of the first row whose variable equals the name. |
| Tables.CouncilValueReadsFirst | dashboard.py:17-18 | A defined name has a first matching row, and every column of the lookup is read from that row. |
| Tables.CouncilValueAppend | dashboard.py:17-18 | On stacked sheets, the first sheet's match wins, and the second sheet is consulted only when the first lacks the name. |
| Tables.CouncilValueSkipsRow | dashboard.py:17-18 | Inserting a row with a different variable name never changes a lookup. |
| Tables.CouncilValueUniqueIsSum | dashboard.py:17-18 | For a name on at most one row, first-match lookup equals the sum over exactly matching rows; only duplicated names tell them apart. |
| Text.ContainsIffOccurs | dashboard.py:15 | The substring test holds exactly when the pattern occurs at some offset of the name. |
| Text.ContainsInContext | dashboard.py:15 | A name containing the marker still contains it with any text added before or after. |
| Format.Fmt | dashboard.py:20-30 | The output is red markup exactly for negative values (zero is plain bold). Money text starts with "R ", and a negative value's minus sign comes after the prefix. |
| Format.FmtUnwrap | dashboard.py:20-30 | The markup can be read back: it says red exactly when the value is negative and wraps exactly the number text. |
| Format.FmtNegation | dashboard.py:22-30 | A positive value and its negation show the same digits; the negative adds '-' after the currency prefix and is red. |
| Dashboard.LookupAll | dashboard.py:77-89 | A chain of lookups fails exactly when one name is missing; otherwise it yields each name's lookup value, in order. |
| Dashboard.LookupAllOf | dashboard.py:77-89 | When each name's lookup gives the listed values, the chain yields exactly that list. |
| Dashboard.LookupAllCongruent | dashboard.py:77-89 | Two sheets that agree on each name's lookup give the same chain. |
| Dashboard.Recoveries | dashboard.py:72-75 | Recoveries have keys "Rand" and the utility's unit, holding the "TOTAL" sums of COST and CONSUMPTION. |
| Dashboard.ElecCouncil | dashboard.py:76-90 | Electricity council charges fail exactly when one of the six tariffs is missing; otherwise the keys are "Rand" and "kWh". |
| Dashboard.ElecCouncilOf | dashboard.py:76-90 | "Rand" is the total of all six tariffs' Rand, and "kWh" is the total of only Peak, Standard and OP's Value. |
| Dashboard.MeteredCouncil | dashboard.py:96-99 | Water or effluent charges fail exactly when the variable is missing; otherwise "Rand" and "kL" are that variable's first row's Rand and Value. |
| Dashboard.CouncilCharges | dashboard.py:71-108 | A utility's council charges fail exactly when one of its variables is missing; the keys are "Rand" and its unit. |
| Dashboard.CouncilChargesSkipRow | dashboard.py:71-108 | A row for a variable the utility does not read never changes its council charges. |
| Dashboard.WalkAway | dashboard.py:110 | Walk-away has exactly the recoveries' keys, and each entry is recoveries minus council. |
| Dashboard.Level1 | dashboard.py:71-110 | A utility's Level 1 fails exactly when a council variable is missing. Otherwise it shows the utility's recoveries and its council charges, all three maps have the keys "Rand" and the unit, and the walk-away is the "TOTAL" sums minus those council charges. |
| Dashboard.Solar | dashboard.py:130-131 | Solar savings are zero, with no error, when no variable contains "MOL Solar". |
| Dashboard.SolarInsert | dashboard.py:130-131 | A row adds its Value and Rand to the savings exactly when its name contains "MOL Solar"; any other row leaves both unchanged. |
| Dashboard.ElecOvercharge | dashboard.py:142-160 | The electricity overcharge fails exactly when a tariff is missing; otherwise it has keys "Consumption Diff" and "Rand Diff". |
| Dashboard.ElecOverchargeAgreesWithCouncil | dashboard.py:142-160 | The municipal subtotals of Level 3 are the council kWh and Rand of Level 1; each diff is the "MOL Muni" sum minus them. |
| Dashboard.MeteredOvercharge | dashboard.py:162-180 | A water or effluent diff fails exactly when the variable is missing. Otherwise each diff is the "COUNCIL" rows' sum minus the first matching row's Value or Rand. |
| Dashboard.MeteredOverchargeAgreesWithCouncil | dashboard.py:162-180 | The water and effluent diffs subtract exactly the council charges that Level 1 shows. |
| Dashboard.Reconcile | dashboard.py:66-180 | The page fails exactly when one of the eight required variables is missing. Otherwise every recoveries, council, walk-away and diff map has exactly the keys the page prints, and each part of the report is the result of its own level: Level 1 per utility, the solar savings and the three overcharge checks. |
| Dashboard.ReconcileOverchargesMatchCouncil | dashboard.py:76-180 | On a whole report, all six overcharge diffs are their meter-side sums minus the council charges of the same report's Level 1. |
| Scenarios.LowerCaseTotalExample | dashboard.py:15 | A "grand total" row is not a recovery: the match is case-sensitive. |
| Scenarios.ElecRecoveriesExample | dashboard.py:14-15 | Two tenants and a "TOTAL" row of R 250 / 1000 kWh give recoveries of exactly that row; the unnamed row is skipped. |
| Scenarios.ElecCouncilExample | dashboard.py:76-90 | Six tariffs give council R 160 and 65 kWh; Max Demand's Value of 7 is not counted. |
| Scenarios.ElecWalkAwayExample | dashboard.py:71-110 | The electricity walk-away is R 90 and 935 kWh. |
| Scenarios.WaterCouncilExample | dashboard.py:96-99 | "Muni Water" of 480 kL / R 950 gives exactly those council charges. |
| Scenarios.WaterOverchargeExample | dashboard.py:162-170 | A "COUNCIL" meter row of 500 kL / R 1000 against that council figure gives diffs of 20 and 50. |

## Left out

- The Streamlit page is not modelled: the sidebar, columns, headers and `st.markdown` calls (dashboard.py:35-45, 57-64, 112-123, 133-134, 182-187) only render.
- Which parts of the page appear before a missing variable stops the script is rendering, so it is left out too. The model reports only that the computation fails.
- Folder scanning and spreadsheet loading (dashboard.py:38-55) are I/O. The sheets are parameters, as sequences of rows.
- Floating point is not modelled: amounts are exact reals, so rounding, NaN and -0.0 are outside the model.
- pandas' skipping of NaN cells inside `.sum()` is not modelled: every numeric cell holds a number.
- Format.NumberText: the digits of `format(x, ",.2f")` (rounding, thousands grouping) are a function parameter the model does not interpret. Only the prefix, the sign and the markup are proved.
- Text.Contains: `str.contains` takes a regular expression. It is modelled as a literal substring test, which agrees for the four patterns used ("TOTAL", "COUNCIL", "MOL Solar", "MOL Muni").
- A NaN in the "Variable" column makes the unguarded `str.contains` at dashboard.py:130-131 and 142-143 fail. Variable names are modelled as always present, so this failure is not modelled.
- Which "Rand" or "kL"/"kWh" key gets the currency prefix when printed (dashboard.py:115-123) is rendering; `Format.Fmt` takes `money` as a parameter.
