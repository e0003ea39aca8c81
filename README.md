# Operating-lease pricing engine, modelled in Dafny

This project models the pricing core of a vehicle operating-lease quoter. The quoter prices one vehicle at three capitals (Meritz, NH and MG) and ranks the offers by monthly payment. The model covers these parts:

- **Straight-line and annuity lease calculator** (`calculator.dfy`): the financing basis, the finance charge, the payment lines and lifetime totals, rounding to 1000 won, and the vehicle-tax and acquisition-tax brackets.
- **MG calculator** (`mg_calculator.dfy`): the acquisition tax without VAT, floored to 10 won, with the capped reduction for electric vehicles. It also covers the balloon PMT payment floored to 100 won and the flat vehicle tax.
- **Interest-rate resolver** (`interest_rates.dfy`): the `INTEREST_RATES` table, the brand override, the first matching price tier, the additive adjustments and the floor at zero.
- **Residual-rate resolver** (`residual_rates.dfy`): the nested lookup with its first-option fallback, the per-capital read-through cache, and the period, mileage and vehicle listings.
- **Input validator** (`validator.dfy`): the error and warning rules, the comparison-input checks and the recommended down payments.
- **Fee tables** (`tax_policies.dfy`): public bond, registration fee, delivery fee and total fees.
- **Vehicle catalog** (`vehicle_master.dfy`): the single-load cache, lookup, filtering, de-duplication, sorting, substring search and limit.
- **Comparison** in `app.py` (`comparison.dfy`): the loop over the capitals with per-capital failure isolation, the preferred-then-fallback grade sequence, the silent skip when residual data is missing, the success-first stable sort, and the conversion of an MG quote to the common result layout.
- **Residual-table extractors** (`meritz_extractor.dfy`, `mg_extractor.dfy`, `residual_extractor.dfy`, with the shared `rate_tables.dfy`): parsing worksheet grids, clamping and rounding rates, the premium uplift, the mileage adjustments and vehicle-id normalisation.

Helper modules: `wrappers` (Option and Result), `numeric` (truncation, floors, rounding, powers, discount sums), `text` (ASCII case mapping, strip, replace, substring, decimal integers), `sorting` (stable sort by key, sorted distinct lists), `dicts` (Python dictionaries as insertion-ordered pairs), `lists` (filtered comprehensions, `index`, slicing), `json` (JSON values with `KeyError` and `TypeError` subscripts) and `cells` (worksheet cells).

Modelling choices:

- Python floats are exact `real`s.
- `int()` truncates toward zero (`Numeric.Trunc`), and `x // 10 * 10` floors to 10 won (`Numeric.Floor10`).
- `round(x, -3)` and `round(x, 4)` round to nearest. Their contracts leave ties open.
- Stateless Python code becomes functions. Code whose loops fill dictionaries, append to lists or scan with a `break` becomes a method whose loop is proved against such a function.
- The module-level caches of residual data and of the vehicle catalog are classes (`ResidualRates.ResidualCache`, `VehicleMaster.VehicleCatalog`). Each holds the cached contents and a ghost record of the file reads. The files on disk are a map held by the object, and loading is a lookup in that map.
- A loaded residual file is a JSON object, so a `null` entry raises `TypeError` where a missing key raises `KeyError`.
- Worksheets are grids of `Num`, `Str` or `Empty` cells.
- The comparison calls catalog searches that `data/vehicle_master.py` does not define (`find_vehicle_by_name` with `capital_id`). It receives them as a function parameter `find` that may fail.

Points where the code does something easy to misread, and what the model does:

- A commercial electric vehicle pays a vehicle tax of 50,000. `calculate_auto_tax` halves the 100,000 electric base like every other branch (`core/calculator.py:151-153`).
- The residual fallback is taken on any `KeyError` of the exact path: a missing term or mileage under an existing grade falls back too. The comment at `data/residual_rates.py:69` speaks only of a missing option.
- In straight-line mode the total payment never decreases as the term grows, given a non-negative finance charge and vehicle tax (`Calculator.SimpleTotalGrowsWithTerm`).
- The MG mileage docstring promises "else 0 %" for other mileages. The code returns the base rate, and so does the model.
- `data/vehicle_master.py` raises on a missing catalog file in `validate_vehicle_exists`, where `data/residual_rates.py` returns `False`. Each module keeps its own behaviour.

## Model

| member | source | states |
|---|---|---|
| Calculator.MethodOf | core/calculator.py:70-81 | annuity mode if and only if the method is "annuity"; any other name is straight-line |
| Calculator.DefaultInput | core/calculator.py:9-20 | the defaulted arguments: no acquisition tax, 200,000 registration, no vehicle tax, straight-line, no acquisition cost |
| Calculator.FinancingBasis | core/calculator.py:57-62 | financed amount plus down payment is the acquisition cost when one is given (and non-zero), else the price; the residual value is a fraction of the price with an acquisition cost, else of the financed amount |
| Calculator.AnnuityFactor | core/calculator.py:75 | the annuity factor at a positive rate exceeds the rate itself |
| Calculator.FactorOf | core/calculator.py:75 | r / (1 - v) exceeds r for v in (0, 1) |
| Calculator.Unrounded | core/calculator.py:57-104 | the breakdown uses the financing basis; the monthly total is the sum of its four lines; depreciation per month times the term is the financed amount less the residual value |
| Calculator.CalculateOperatingLease | core/calculator.py:9-120 | every money output is one rounding to 1000 of its unrounded quantity, the monthly total and the total payment are whole thousands within 500 of the exact values, and the rates are passed through |
| Calculator.SimpleMode | core/calculator.py:81-92 | straight-line: the finance charge is the average of financed and residual value times the monthly rate, and the base is depreciation plus finance |
| Calculator.AnnuityZeroRate | core/calculator.py:72-79 | annuity at a zero rate: the base repays the depreciation over the term and there is no finance charge |
| Calculator.AnnuityPresentValue | core/calculator.py:70-79 | annuity at a positive rate: the base payment is the balloon payment whose present value with the residual balloon is the financed amount, and the finance line is its excess over even depreciation |
| Calculator.AnnuityBalloon | core/calculator.py:75-78 | depreciation annuity plus interest on the residual is the balloon payment |
| Calculator.SimpleTotalGrowsWithTerm | core/calculator.py:81-104 | straight-line, with non-negative finance and vehicle tax, a longer term never lowers the unrounded total payment |
| Calculator.TermFreeLines | core/calculator.py:81-97 | two inputs differing only in term share the term-free lines, and the per-month accrual is non-negative |
| Calculator.LifetimeSimple | core/calculator.py:81-103 | the straight-line total is the term-free lines plus the per-month accrual times the term |
| Calculator.SimpleTotalLines | core/calculator.py:81-103 | the straight-line total written line by line from the inputs |
| Calculator.WorkedExample | core/calculator.py:57-100 | 50,000,000 won over 36 months at residual 0.5 and 6 %: finance 187,500 a month, depreciation 25,000,000 / 36, vehicle tax 400,000 / 12 |
| Calculator.AutoTax | core/calculator.py:123-155 | a commercial vehicle pays exactly half the private tax in every branch |
| Calculator.AutoTaxElectric | core/calculator.py:135-136 | an electric vehicle pays 100,000 privately and 50,000 when commercial |
| Calculator.AutoTaxMonotone | core/calculator.py:139-149 | for positive displacements the tax is positive and never decreases as displacement grows |
| Calculator.AcquisitionTax | core/calculator.py:158-188 | commercial vehicles are exempt; electric vehicles pay 7 % of the supply price less up to 1,400,000, never below 0; others pay 7 % of the supply price |
| Calculator.AcquisitionTaxOrder | core/calculator.py:174-188 | for a non-negative price commercial pays nothing, electric no more than any other type and at most 1,400,000 less |
| Calculator.TotalAcquisitionCost | core/calculator.py:191-232 | the total is one rounding of the six components with the unrounded tax, not a sum of rounded parts; the other inputs are passed through |
| Comparison.DisplayName | app.py:379 | a capital id without a display name is shown as the id itself |
| Comparison.ChooseGrade | app.py:260-289 | a chosen grade is the capital's preferred (high-residual) grade or its fallback grade |
| Comparison.AnnualRate | app.py:292-299 | a resolved interest rate is never negative |
| Comparison.NumericRate | app.py:317-353 | the stored rate is usable as a number if and only if it is a number or a bool |
| Comparison.MgDownRate | app.py:315 | the division fails if and only if a positive down payment meets a zero total; otherwise the rate gives back the down payment, and no down payment gives rate 0 |
| Comparison.StandardAcquisitionCost | app.py:337-340 | the Meritz / NH acquisition cost is the price plus 7 % of the supply price plus 100,000 |
| Comparison.StandardInput | app.py:342-353 | the straight-line calculator's input is one it can evaluate |
| Comparison.PricedEntry | app.py:305-385 | a priced entry names its capital, carries the chosen grade and the stored rate |
| Comparison.MgEntry | app.py:305-329 | the MG entry's payment is that of the balloon quote computed with the down-payment rate of the acquisition total, in Seoul, electric exactly when there is no engine size |
| Comparison.MgAcquisition | app.py:308-314 | the MG acquisition total is the price plus its acquisition tax |
| Comparison.StandardEntry | app.py:330-375 | the Meritz / NH entry's payment is the straight-line monthly total |
| Comparison.CapitalOutcome | app.py:241-397 | an entry always names the capital it was computed for |
| Comparison.Collected | app.py:241-397 | at most one entry per capital |
| Comparison.PaymentOrderIsPreorder | app.py:400 | the sort key orders the entries as a total preorder |
| Comparison.ResolveGrade | app.py:267-289 | the two lookups through the shared cache choose the grade the nested try blocks choose, and read the capital's file at most once |
| Comparison.PriceCapital | app.py:242-397 | one capital's try block through the shared cache gives that capital's outcome; the capital's file is read through the cache only when its vehicle is found |
| Comparison.CompareCapitals | app.py:241-400 | the loop over the capitals and the sort give the comparison results; afterwards the cache holds what it held plus the files the loop read, and the read log only grows |
| Comparison.ReadCapitalsMembers | app.py:241-289 | the loop reads a capital's residual file exactly when the capital is listed, has a file and its vehicle is found |
| Comparison.CollectedAppend | app.py:241-397 | the entries of two capital lists in a row are the entries of each, in order |
| Comparison.FailureIsolation | app.py:241-397 | whatever one capital does, raising included, the entries of the capitals before and after it are unchanged |
| Comparison.CollectedMembers | app.py:241-397 | an entry is in the results if and only if it is the outcome of some capital of the list |
| Comparison.NoSkipOneEntryEach | app.py:241-397 | when no capital is skipped there is exactly one entry per capital |
| Comparison.SkipIffNoResidualData | app.py:274-289 | a capital gets no entry if and only if its vehicle is found and both grades raise the missing-data ValueError |
| Comparison.GradeSequence | app.py:260-289 | a priced entry carries the preferred grade when its data exists, and otherwise the fallback grade, tried only after the missing-data ValueError; the grades are snk_premium / snk_normal at MG and aps_premium / west_normal elsewhere |
| Comparison.FailureEntries | app.py:241-397 | a vehicle not found, a missing residual file, or an unknown capital in the rate table gives a failure entry with that exception's message, never a silent skip |
| Comparison.ResultsOrder | app.py:400 | the sorted results are a permutation of the collected entries, failures last, non-zero payments ascending ahead of zero ones, equal keys in collection order |
| Comparison.SortedByPayment | app.py:400 | the stable sort by the key puts failures last and non-zero payments in ascending order, keeping equal keys in order |
| Comparison.PaymentSorted | app.py:400 | what being sorted by the key means for failures and payments |
| Comparison.MgDownPaymentRoundTrip | app.py:302-327 | at MG the down payment turned into a rate is turned back into the same down payment, truncated to won; the payment is a whole hundred and the acquisition cost is the price plus its tax |
| Comparison.MgDownPaymentFromRate | app.py:315-327 | the calculator's down payment from that rate is the down payment truncated to won |
| Comparison.StandardFinancing | app.py:337-353 | at Meritz and NH the acquisition cost less the down payment is financed and the residual is taken from the price |
| Comparison.StandardPayment | app.py:354-360 | the Meritz / NH payment is a whole thousand, and the detail total is the down payment plus every payment |
| Comparison.NullPremiumFailsAtMg | app.py:268-289 | an MG vehicle with a null snk_premium entry gets a TypeError failure entry although its snk_normal rate is stored |
| Comparison.ChooseGradeCorrected | app.py:274-289 | with any failure of the preferred grade moving to the fallback, a chosen grade is still the preferred or the fallback grade |
| Comparison.NullPremiumUsesNormal | app.py:274-289 | with the corrected sequence, that MG vehicle is priced at its stored snk_normal rate |
| Comparison.CorrectionOnlyForTypeErrors | app.py:268-289 | the correction changes nothing where the preferred lookup does not raise a TypeError |
| Comparison.CommonFromMg | app.py:577-588 | the converted depreciation is the depreciable amount floor-divided by the term, depreciation plus finance is the MG payment, and the interest is what the contract pays beyond the financed amount net of the residual |
| Comparison.ConvertedInterest | app.py:562-588 | for an MG quote the converted interest is the payments beyond the depreciable amount, at most the finance line over the term and less than one won a month below it |
| Comparison.ConvertedInterestOf | app.py:579-585 | the same for any quote whose total is the down payment plus the payments |
| InterestRates.FirstMatch | data/interest_rates.py:128-132 | a tier rate is found if and only if some tier's ceiling admits the price |
| InterestRates.FirstMatchIsFirst | data/interest_rates.py:128-132 | the rate found is that of the first tier, in list order, whose ceiling admits the price |
| InterestRates.InterestRate | data/interest_rates.py:120-159 | the resolved rate is never negative, is at least the base rate plus the applied deltas, and equals that sum whenever it is positive |
| InterestRates.TableHasTiers | data/interest_rates.py:10-90 | every capital of the table has at least one price tier |
| InterestRates.GetInterestRate | data/interest_rates.py:93-159 | an unknown capital raises the missing-data ValueError; a known one gives its resolved rate |
| InterestRates.ScanTiers | data/interest_rates.py:128-132 | the loop that breaks at the first admitting tier finds exactly the first matching tier's rate |
| InterestRates.GetBaseRate | data/interest_rates.py:162-182 | an unknown capital raises the ValueError; a known one gives the first matching tier's rate, or the last tier's |
| InterestRates.GetBrandRate | data/interest_rates.py:185-200 | a rate is returned if and only if the capital is known and has an override for the brand, and it is that override |
| InterestRates.GetRateAdjustments | data/interest_rates.py:208-221 | the ValueError for exactly the unknown capitals; otherwise the capital's adjustment table |
| InterestRates.AvailableCapitals | data/interest_rates.py:203-205 | every capital of the table, each once |
| InterestRates.OverrideIgnoresTiers | data/interest_rates.py:122-135 | with a brand override the base is the override and the price does not change the resolved rate |
| InterestRates.NoOverrideBaseIsTierRate | data/interest_rates.py:126-135 | without an override the base of get_interest_rate is the rate get_base_rate gives |
| InterestRates.ImportOrDomestic | data/interest_rates.py:141-145 | exactly one of the import and domestic deltas applies: switching the flag swaps one for the other |
| InterestRates.DeltasIndependent | data/interest_rates.py:147-157 | the EV, 48-month and high-credit deltas are each added exactly when their condition holds, independently of the others |
| InterestRates.TableTiersWellFormed | data/interest_rates.py:10-90 | every capital's ceilings strictly ascend, only the last is unbounded, and the rates never rise along the list |
| InterestRates.StandardTiersWellFormed | data/interest_rates.py:13-18 | the 30M / 50M / 80M / unbounded layout with falling rates is well formed |
| InterestRates.FallbackUnreachable | data/interest_rates.py:134-135 | with an unbounded last tier some tier always matches, so the fallback to the last tier is never taken |
| InterestRates.FirstMatchIndex | data/interest_rates.py:128-132 | for well-formed tiers there is a first admitting tier and the scan returns its rate |
| InterestRates.TierRateNonIncreasing | data/interest_rates.py:13-18 | a dearer vehicle never gets a higher tier rate |
| InterestRates.MeritzBmwExample | data/interest_rates.py:11-33 | Meritz's BMW override of 5.05 % plus the 0.5 %p import delta resolves to 5.55 % at 36 months |
| MeritzExtractor.GradeNames | excel_reverse_engineering/meritz_extractor.py:118-122 | no grade name read from a header is empty |
| MeritzExtractor.HeaderGrades | excel_reverse_engineering/meritz_extractor.py:118-122 | the grades are exactly the header's non-empty text cells after the period column, in order |
| MeritzExtractor.ReadGradeRates | excel_reverse_engineering/meritz_extractor.py:145-149 | grade i takes the cell one column to the right of its own index, and is stored only when that cell is a number in (0, 1] |
| MeritzExtractor.ParseResidualTable | excel_reverse_engineering/meritz_extractor.py:98-151 | the parsed table is the row-by-row reading of the window, and it holds only the standard terms, only the header's grades, and only rates in (0, 1] |
| MeritzExtractor.GradeRatesWellFormedAlways | excel_reverse_engineering/meritz_extractor.py:145-149 | one term row's rates use only header grades and values in (0, 1], whatever the row holds |
| MeritzExtractor.ParsedTableWellFormed | excel_reverse_engineering/meritz_extractor.py:124-151 | every table parsed from any rows is well formed (standard terms, header grades, rates in (0, 1]) |
| MeritzExtractor.ParsedTerms | excel_reverse_engineering/meritz_extractor.py:134-143 | a term is in the table if and only if some row's first cell is a number whose integer part is that standard term |
| MeritzExtractor.FractionalTermTruncated | excel_reverse_engineering/meritz_extractor.py:136-141 | a period of 24.5 is read as 24; a period of 12 and a text period are skipped |
| MeritzExtractor.Rows | excel_reverse_engineering/meritz_extractor.py:125-132 | the window of rows start .. end - 1 has end - start rows |
| MeritzExtractor.ExtractResidualTables | excel_reverse_engineering/meritz_extractor.py:63-96 | the four partner tables are parsed from their fixed windows of the residual sheet |
| MeritzExtractor.ExtractMileageAdjustments | excel_reverse_engineering/meritz_extractor.py:153-179 | the adjustments are the fold over sheet rows 36-39, columns 9 and 10 |
| MeritzExtractor.AdjustmentEntries | excel_reverse_engineering/meritz_extractor.py:163-177 | every stored mileage is non-negative and comes, with its value, from some row carrying it as a positive number (a non-numeric adjustment counts 0) |
| MeritzExtractor.AdjustmentKeys | excel_reverse_engineering/meritz_extractor.py:163-177 | a mileage has an adjustment if and only if some row carries it as a positive number |
| MeritzExtractor.AdjustedMileageRates | excel_reverse_engineering/meritz_extractor.py:294-297 | the mileage loop yields, for each standard mileage, the clamped base rate plus that mileage's adjustment |
| MeritzExtractor.CalculateResidualForVehicle | excel_reverse_engineering/meritz_extractor.py:273-299 | the loop over the standard terms yields the vehicle's residual table, or None when no term lists the grade |
| MeritzExtractor.MileageRatesGet | excel_reverse_engineering/meritz_extractor.py:294-297 | a mileage has a rate if and only if it is one of the mileages, and the rate is the clamped base plus adjustment (0 when none is listed) |
| MeritzExtractor.MileageRatesShape | excel_reverse_engineering/meritz_extractor.py:294-297 | the mileages are distinct and every rate has four decimals and lies in [0.1, 0.95] |
| MeritzExtractor.TermRatesGet | excel_reverse_engineering/meritz_extractor.py:283-297 | a term has rates if and only if it is one of the terms and the table lists the grade under it; its rates are then that base rate per mileage |
| MeritzExtractor.TermRatesEmpty | excel_reverse_engineering/meritz_extractor.py:283-299 | no rates at all if and only if the table lists the grade under none of the terms |
| MeritzExtractor.TermRatesShape | excel_reverse_engineering/meritz_extractor.py:283-297 | the terms are distinct, each term's mileages are distinct, and every rate is capped with four decimals |
| MeritzExtractor.VehicleResidualSpec | excel_reverse_engineering/meritz_extractor.py:273-299 | None if and only if no standard term lists the grade; otherwise exactly those terms, each with exactly the four standard mileages, at the clamped adjusted base rate |
| MeritzExtractor.VehicleResidualCapped | excel_reverse_engineering/meritz_extractor.py:273-319 | a generated table has distinct keys and capped four-decimal rates, and its premium table keeps every rate between the normal rate and 0.95 |
| MeritzExtractor.IdPart | excel_reverse_engineering/meritz_extractor.py:325 | an id part holds no space |
| MeritzExtractor.NormalizeVehicleId | excel_reverse_engineering/meritz_extractor.py:321-326 | a vehicle id holds no space and no lower-case ASCII letter |
| MeritzExtractor.IdPartsListed | excel_reverse_engineering/meritz_extractor.py:324-325 | for a listed row the id parts are maker, model and trim, with the model dropped when it is empty |
| MeritzExtractor.NormalizeVehicleIdParts | excel_reverse_engineering/meritz_extractor.py:321-326 | for a listed row the id is maker_model_trim upper-cased, or maker_trim when the model is empty (no doubled underscore) |
| MeritzExtractor.AddPartner | excel_reverse_engineering/meritz_extractor.py:239-246 | a partner adds its normal table and the uplifted premium table only when its grade cell is filled and yields a table |
| MeritzExtractor.WithPartnerGet | excel_reverse_engineering/meritz_extractor.py:239-246 | after adding a partner, its normal key holds the normal table, its premium key the premium table, and every other key is unchanged |
| MeritzExtractor.VehicleOptionsGet | excel_reverse_engineering/meritz_extractor.py:236-266 | reading any key of a row's residual data, with VGS, APS and West in the order they are stored |
| MeritzExtractor.VehicleOptionsSpec | excel_reverse_engineering/meritz_extractor.py:236-266 | a row's residual data holds each partner's normal table and its premium table (8 % for West and APS, 6 % for VGS), and holds no key outside the six option names |
| MeritzExtractor.ExtractVehiclesWithResiduals | excel_reverse_engineering/meritz_extractor.py:181-271 | the row loop over the vehicle sheet from row 7 yields the master and residual dictionaries of the fold Extracted |
| MeritzExtractor.ExtractAll | excel_reverse_engineering/meritz_extractor.py:32-61 | the whole extraction is the vehicle fold run with the residual sheet's tables and adjustments |
| MeritzExtractor.ExtractedKeys | excel_reverse_engineering/meritz_extractor.py:193-232 | a vehicle id is in the master if and only if some listed row (maker, trim and price filled) produces it |
| MeritzExtractor.ResidualsInMaster | excel_reverse_engineering/meritz_extractor.py:213-269 | only vehicles in the master have residual tables |
| MeritzExtractor.LaterRowReplaces | excel_reverse_engineering/meritz_extractor.py:215-269 | a later row with the same id replaces the master record, but replaces the residual tables only when it has any |
| MeritzExtractor.ImportRule | excel_reverse_engineering/meritz_extractor.py:228 | the five domestic makers are not imports; any other maker text, and a maker that is not text, is an import |
| MgCalculator.AcquisitionTax | core/mg_calculator.py:164-204 | the tax is a multiple of 10 won; electric first: 7 % of the price without VAT less the smaller of 4 % and 1,400,000, never negative; then hybrid 5 %; otherwise 7 %, each floored to 10 won |
| MgCalculator.IntFloor10 | core/mg_calculator.py:189 | int() of a floor to 10 won is that floor |
| MgCalculator.AcquisitionTaxBounds | core/mg_calculator.py:185-204 | for a non-negative price every branch is non-negative, and the electric tax lies between the default 7 % less 1,400,000 and the default 7 % |
| MgCalculator.HybridBelowDefault | core/mg_calculator.py:196-204 | a hybrid never pays more acquisition tax than a conventional vehicle of the same price |
| MgCalculator.BondCost | core/mg_calculator.py:206-214 | no public bond is charged, whatever the region |
| MgCalculator.CalculateAcquisitionCost | core/mg_calculator.py:124-162 | the tax is the acquisition tax of the vehicle, bond and registration are 0, and the total is the price plus the tax |
| MgCalculator.AnnualCarTax | core/mg_calculator.py:216-233 | 130,000 for an electric vehicle; otherwise 1.32 % of the price, truncated to won |
| MgCalculator.PowNotOne | core/mg_calculator.py:75-80 | the growth factor of a non-zero rate above -1 over at least one period is not 1, so the PMT closed form is defined |
| MgCalculator.PmtIsBalloon | core/mg_calculator.py:73-80 | at a positive rate the PMT payment is the level payment whose present value, with the residual as balloon, is exactly the financed amount |
| MgCalculator.PmtZeroRate | core/mg_calculator.py:73-80 | at a zero rate the PMT payments over the term add up to the financed amount less the residual |
| MgCalculator.FloorToHundred | core/mg_calculator.py:82-84 | the payment is a multiple of 100 won, at most the exact payment and less than 100 won below it |
| MgCalculator.Calculate | core/mg_calculator.py:18-122 | the quote uses the vehicle's acquisition cost and yearly car tax; the total is price plus tax, bond and registration are 0 |
| MgCalculator.QuoteFrom | core/mg_calculator.py:59-121 | the down payment is the truncated share of the acquisition cost, down payment plus financed amount is the acquisition cost, the residual is the truncated share of the price, the payment is the PMT payment floored to 100, the total is down payment plus all payments, the net cost is the total less the residual, and the monthly car tax is the truncated twelfth |
| MgCalculator.QuoteBelowExactPayment | core/mg_calculator.py:73-87 | whenever the exact PMT payment is non-negative the quote undercuts it by less than 100 won a month, so the total never exceeds the exact amortization |
| MgCalculator.ElectricCarTax | core/mg_calculator.py:228-230 | an electric vehicle pays 130,000 a year, 10,833 a month |
| Numeric.Trunc | core/mg_calculator.py:65 | int() truncates toward zero: within one unit of the value, on the side of zero |
| Numeric.Floor10 | core/mg_calculator.py:189 | x // 10 * 10 is the multiple of 10 at or below x and within 10 of it |
| Numeric.Round1000 | core/calculator.py:107-119 | round(x, -3) is a multiple of 1000 within 500 of x |
| Numeric.Round1000Monotone | core/calculator.py:107-119 | rounding to 1000 never reverses the order of two amounts |
| Numeric.Round4 | excel_reverse_engineering/meritz_extractor.py:297 | round(x, 4) has four decimals and lies within half a unit of the fourth place of x |
| Numeric.Round4Monotone | excel_reverse_engineering/meritz_extractor.py:317 | rounding to four places never reverses the order of two rates |
| Numeric.Round4OfFourPlaces | excel_reverse_engineering/meritz_extractor.py:317 | a rate that already has four decimals is unchanged by round(x, 4) |
| Numeric.Round4Within | excel_reverse_engineering/meritz_extractor.py:297 | rounding to four places keeps a clamped rate inside its clamp |
| Numeric.Discount | core/calculator.py:75 | the discount factor (1 + r)^-n at a positive rate lies in (0, 1] and below 1 for a term of one period or more |
| Numeric.DiscountSumClosedForm | core/calculator.py:75 | the present value of n unit payments is (1 - (1 + r)^-n) / r |
| Numeric.BalloonRepays | core/calculator.py:72-79 | the balloon payment repays the financed amount exactly, and it is the only level payment that does |
| MgExtractor.HeaderGrades | excel_reverse_engineering/mg_extractor.py:127-133 | the grades are the texts of the header cells up to, and not including, the first empty cell |
| MgExtractor.ReadGrades | excel_reverse_engineering/mg_extractor.py:127-133 | the header loop stops at the first empty cell and yields those grades |
| MgExtractor.GradesStopAtGap | excel_reverse_engineering/mg_extractor.py:130-133 | a grade after an empty header cell is never read; a number header is read as its text |
| MgExtractor.Slot | excel_reverse_engineering/mg_extractor.py:146-150 | a slot is filled if and only if the cell is a number, and then holds it rounded to four places |
| MgExtractor.Slots | excel_reverse_engineering/mg_extractor.py:143-150 | a data row gives exactly one slot per grade, each read from that grade's column |
| MgExtractor.ReadSlots | excel_reverse_engineering/mg_extractor.py:143-150 | the slot loop of one row yields exactly those slots |
| MgExtractor.ParseGradeTable | excel_reverse_engineering/mg_extractor.py:103-158 | the parsed table is the header grades and the row-by-row term slots, and every term has one slot per grade |
| MgExtractor.ExtractGradeTables | excel_reverse_engineering/mg_extractor.py:73-101 | the SNK and APS tables are parsed from their fixed places, both aligned |
| MgExtractor.PeriodRatesAligned | excel_reverse_engineering/mg_extractor.py:137-152 | every term stored has exactly one slot per grade |
| MgExtractor.PeriodRatesKeys | excel_reverse_engineering/mg_extractor.py:137-152 | a term has slots if and only if some data row carries it as a non-zero number |
| MgExtractor.PeriodRatesLast | excel_reverse_engineering/mg_extractor.py:137-152 | a term's slots are those of the last data row that carries it |
| MgExtractor.ParsedBase | excel_reverse_engineering/mg_extractor.py:137-152 | read back through the sheet, the base rate of a grade is the rounded number in its column of the last row carrying the term, or none when that cell is not a number |
| MgExtractor.FirstHeaderRow | excel_reverse_engineering/mg_extractor.py:181-186 | the header row found is the first of rows 1-9 holding BRAND and MODEL, and none when no such row exists |
| MgExtractor.FindHeaderRow | excel_reverse_engineering/mg_extractor.py:181-186 | the header search stops at the first header row |
| MgExtractor.GenerateVehicleId | excel_reverse_engineering/mg_extractor.py:241-250 | an id holds no space, parenthesis, slash or dash and no lower-case ASCII letter |
| MgExtractor.GenerateVehicleIdPlain | excel_reverse_engineering/mg_extractor.py:241-250 | a brand and model free of those characters give just BRAND_MODEL upper-cased |
| MgExtractor.ExtractVehicleMaster | excel_reverse_engineering/mg_extractor.py:160-239 | the master is the row fold after the header, a ValueError when rows 1-9 hold no header, and its ids are distinct |
| MgExtractor.MasterRowsUnique | excel_reverse_engineering/mg_extractor.py:192-237 | the master's vehicle ids are distinct |
| MgExtractor.MasterRowsKeys | excel_reverse_engineering/mg_extractor.py:192-237 | a vehicle id is in the master if and only if some data row after the header, with brand and model filled, produces it |
| MgExtractor.VehicleAtSpec | excel_reverse_engineering/mg_extractor.py:202-221 | the base model has no space and, joined with the trim, gives back the model text; the fuel is electric if and only if there is no engine size; import if and only if the brand is not a listed domestic brand |
| MgExtractor.FuelTypeIgnoresCase | excel_reverse_engineering/mg_extractor.py:214 | the hybrid test ignores letter case |
| MgExtractor.RenaultKoreaDomestic | excel_reverse_engineering/mg_extractor.py:220-221 | 르노코리아 counts as domestic here but is missing from the Meritz extractor's domestic list |
| MgExtractor.SnkMileageLoop | excel_reverse_engineering/mg_extractor.py:298-303 | the mileage loop yields each standard mileage's SNK-adjusted base rate rounded to four places |
| MgExtractor.SnkNormalLoop | excel_reverse_engineering/mg_extractor.py:288-303 | the term loop yields the normal table over the terms 12 to 60 |
| MgExtractor.VehicleResidualsOf | excel_reverse_engineering/mg_extractor.py:276-319 | one vehicle's entry is its normal table and, when allowed, its premium table |
| MgExtractor.CalculateVehicleResiduals | excel_reverse_engineering/mg_extractor.py:252-321 | every vehicle of the master, in order, gets its entry |
| MgExtractor.ExtractAllData | excel_reverse_engineering/mg_extractor.py:37-71 | a missing header is passed on as the error; otherwise the master and every vehicle's entry from the aligned SNK table |
| MgExtractor.SnkNormalShape | excel_reverse_engineering/mg_extractor.py:288-303 | a normal table has distinct terms and, within each term, distinct mileages |
| MgExtractor.SnkMileageRatesGet | excel_reverse_engineering/mg_extractor.py:298-303 | a mileage has a rate if and only if it is one of the mileages, and it is the rounded adjusted base rate |
| MgExtractor.SnkNormalGet | excel_reverse_engineering/mg_extractor.py:289-303 | a term has rates if and only if it is one of the terms and its slot for the grade is filled |
| MgExtractor.VehicleResidualsSpec | excel_reverse_engineering/mg_extractor.py:275-319 | no entry if and only if the grade is empty, not text or not a header grade; otherwise the first matching grade position is used, the normal table holds exactly the filled terms with the four mileages, and the premium table (8 %) exists if and only if column P reads Y |
| MgExtractor.SnkAdjustmentRange | excel_reverse_engineering/mg_extractor.py:323-347 | the SNK step lies between −4 % and +0.5 %, changes nothing except at 10 000, 30 000 and 35 000 km, and raises the rate only at 10 000 km |
| MgExtractor.PremiumCanFallBelowNormal | excel_reverse_engineering/mg_extractor.py:303-313 | with no clamping, a base rate of 0.95 gives a normal rate of 0.955 and a premium rate of 0.95, below it |
| RateTables.Uplift | excel_reverse_engineering/meritz_extractor.py:318 | a premium rate has four decimals, is at most 0.95, and is not below a capped four-decimal normal rate when the uplift is non-negative |
| RateTables.ApplyPremium | excel_reverse_engineering/meritz_extractor.py:301-319 | the loop produces the premium table of the normal table |
| RateTables.UpliftEach | excel_reverse_engineering/meritz_extractor.py:316-318 | the inner loop uplifts every mileage's rate of one term |
| RateTables.PremiumShape | excel_reverse_engineering/meritz_extractor.py:301-319 | the premium table has exactly the normal table's terms and mileages, in order, and each term's premium rates are its uplifted normal rates |
| RateTables.PremiumRate | excel_reverse_engineering/meritz_extractor.py:316-318 | a premium rate exists if and only if the normal rate does, and is that rate uplifted |
| RateTables.PremiumWithinBounds | excel_reverse_engineering/mg_extractor.py:309-314 | for a capped normal table and a non-negative uplift, every premium rate lies between its normal rate and 0.95 |
| RateTables.AdjustedRate | excel_reverse_engineering/meritz_extractor.py:297 | a clamped rate has four decimals and lies in [0.1, 0.95], and a rate already in range is kept as it is |
| ResidualExtractor.NormalizeVehicleId | excel_reverse_engineering/residual_extractor.py:40-43 | the id has the sheet name's length, every character is the name's character upper-cased with a space turned into '_', and no space is left |
| ResidualExtractor.ColumnIndex | excel_reverse_engineering/residual_extractor.py:85-88 | the loop over the header row yields the column map |
| ResidualExtractor.ColumnMapSound | excel_reverse_engineering/residual_extractor.py:85-88 | the column map holds only header values, each at a column whose cell is that number |
| ResidualExtractor.LastColumnSpec | excel_reverse_engineering/residual_extractor.py:85-88 | the rightmost column holding a value is found if and only if one holds it, and no later column does |
| ResidualExtractor.RightmostColumn | excel_reverse_engineering/residual_extractor.py:85-88 | a header value maps to the rightmost column holding it, and is unmapped when no column does |
| ResidualExtractor.ReadNextRow | excel_reverse_engineering/residual_extractor.py:103-113 | the body of the row loop reads one row after the header into the table |
| ResidualExtractor.ReadBlock | excel_reverse_engineering/residual_extractor.py:83-113 | a header's block is its column map applied to at most the nine following rows, never past the sheet |
| ResidualExtractor.FindTable | excel_reverse_engineering/residual_extractor.py:65-118 | the search returns the first header row's non-empty block; a block found is non-empty and well formed |
| ResidualExtractor.ExtractFromSheet | excel_reverse_engineering/residual_extractor.py:45-63 | the sheet's table is the pattern-1 table, else the pattern-2 table, and a table found is non-empty and well formed |
| ResidualExtractor.ExtractAllVehicles | excel_reverse_engineering/residual_extractor.py:16-38 | every sheet with a table is stored under its normalised name, a later sheet with the same id replacing an earlier one |
| ResidualExtractor.StoreKeepsShape | excel_reverse_engineering/residual_extractor.py:110-113 | storing a valid rate under a standard term and mileage keeps a table well formed and free of empty terms |
| ResidualExtractor.FillRowKeepsShape | excel_reverse_engineering/residual_extractor.py:108-113 | filling a row from the column map keeps a table well formed and creates no empty term |
| ResidualExtractor.ReadRowKeepsShape | excel_reverse_engineering/residual_extractor.py:103-113 | reading a row keeps a table well formed; in pattern 1 it creates no empty term |
| ResidualExtractor.ReadRowsKeepShape | excel_reverse_engineering/residual_extractor.py:93-113 | the rows read into an empty table give a well-formed table, with no empty term in pattern 1 |
| ResidualExtractor.BlockWellFormed | excel_reverse_engineering/residual_extractor.py:83-116 | every block holds only standard terms and mileages with rates in (0, 1]; a pattern-1 block has no empty term |
| ResidualExtractor.FirstHeaderWins | excel_reverse_engineering/residual_extractor.py:79-116 | a table found comes from a header row holding all the header values with a non-empty block, and every earlier row is no header or has an empty block |
| ResidualExtractor.NoTableNoHeader | excel_reverse_engineering/residual_extractor.py:79-118 | nothing is found if and only if no row is a header with a non-empty block |
| ResidualExtractor.ReadRowsLocal | excel_reverse_engineering/residual_extractor.py:93-101 | the rows read depend only on the rows in the window |
| ResidualExtractor.BlockSeesNineRows | excel_reverse_engineering/residual_extractor.py:93-95 | two sheets agreeing on a header row and the nine rows after it give that header the same block |
| ResidualExtractor.PatternOrder | excel_reverse_engineering/residual_extractor.py:53-63 | the pattern-1 table wins whenever there is one, pattern 2 is tried only otherwise, and there is no table if and only if neither pattern has a header row with data |
| ResidualExtractor.TermsAcrossNoEmptyTerm | excel_reverse_engineering/residual_extractor.py:108-113 | a pattern-1 table never holds a term without a rate |
| ResidualExtractor.MileagesAcrossKeepsEmptyTerm | excel_reverse_engineering/residual_extractor.py:158-166 | pattern 2 keeps a term row with no usable rate as an empty term: a mileage header over a bare 24-month row yields {24: {}} |
| ResidualRates.ResidualRate | data/residual_rates.py:59-82 | a lookup over loaded data never reports a missing file, and a ValueError names capital, vehicle, option, term and mileage |
| ResidualRates.LookupRate | data/residual_rates.py:27-31 | the lookup fails with FileNotFoundError if and only if the capital has no file |
| ResidualRates.ExactHit | data/residual_rates.py:65-67 | a value stored under vehicle, option, term and mileage is returned as is |
| ResidualRates.KeyErrorFallsBack | data/residual_rates.py:68-76 | any KeyError on the exact path, including a present option that lacks the term or mileage, falls back to the first stored option's value at the same term and mileage |
| ResidualRates.NullGradeRaises | data/residual_rates.py:65-68 | a null option entry raises TypeError on the exact path, which the KeyError handler does not catch, so the fallback is never tried |
| ResidualRates.UnknownVehicleNoData | data/residual_rates.py:70-82 | a vehicle missing from the file fails with the ValueError naming all five coordinates |
| ResidualRates.FallbackMissNoData | data/residual_rates.py:70-82 | a vehicle with no options, or whose first option lacks the term, fails with that ValueError too |
| ResidualRates.ConvertMileages | data/residual_rates.py:108-111 | a converted mileage dictionary has distinct keys |
| ResidualRates.ConvertMileageEntries | data/residual_rates.py:108-111 | converting the mileage keys one by one gives distinct keys |
| ResidualRates.ConvertTerms | data/residual_rates.py:105-111 | the converted table has distinct terms |
| ResidualRates.ConvertStep | data/residual_rates.py:106-111 | one iteration of the conversion keeps the terms distinct |
| ResidualRates.ConvertEntries | data/residual_rates.py:105-111 | the conversion loop, which stops at the first key int() rejects, yields the converted table or that error |
| ResidualRates.FailureStays | data/residual_rates.py:106-107 | once a key fails to convert, the whole conversion fails with that error |
| ResidualRates.ConvertedKeys | data/residual_rates.py:108-111 | after conversion, m is a mileage if and only if some original key reads as m under int() |
| ResidualRates.ParsedKeys | data/residual_rates.py:108-110 | int() of every key, one result per key |
| ResidualRates.ParsedKeyAt | data/residual_rates.py:109 | the i-th parsed key is int() of the i-th key |
| ResidualRates.SortedKeys | data/residual_rates.py:149 | sorted keys are strictly ascending and are exactly the dictionary's keys |
| ResidualRates.VehicleTable | data/residual_rates.py:99-113 | a converted vehicle table has distinct terms |
| ResidualRates.AvailablePeriods | data/residual_rates.py:146-149 | the listing fails exactly when the table conversion fails; otherwise the periods are strictly ascending and are exactly the converted table's terms |
| ResidualRates.AvailableMileages | data/residual_rates.py:152-159 | the listing fails exactly when the table conversion fails; otherwise the mileages are strictly ascending, exactly the term's mileage keys, and empty for a term the table lacks |
| ResidualRates.GradeKeyedDataNotConvertible | data/residual_rates.py:106-107 | a vehicle entry whose first key contains a lower-case letter fails to convert, at that key |
| ResidualRates.FirstEntryFails | data/residual_rates.py:106-107 | when int() rejects the first key, the conversion fails at that key |
| ResidualRates.AvailablePeriodsFailOnGradeKeys | data/residual_rates.py:146-149 | on data keyed by grade option, as both extractors write it, the period listing always raises ValueError |
| ResidualRates.PeriodsOfGrade | data/residual_rates.py:146-149 | the corrected period listing, read under one grade option, is strictly ascending |
| ResidualRates.PeriodsOfGradeListsTerms | data/residual_rates.py:146-149 | the corrected listing succeeds and holds exactly the terms whose keys int() reads, including every term written as its decimal |
| ResidualRates.ResidualCache.constructor | data/residual_rates.py:11 | the cache starts empty over the files on disk |
| ResidualRates.ResidualCache.Load | data/residual_rates.py:14-36 | a file is read at most once and then served from the cache; a capital without a file gives None and leaves the cache alone |
| ResidualRates.ResidualCache.GetResidualRate | data/residual_rates.py:39-82 | the answer is the lookup over the files alone, whatever the cache held; the capital's file is read through the cache: read and cached once if it was not cached, otherwise nothing changes |
| ResidualRates.ResidualCache.ValidateVehicleExists | data/residual_rates.py:122-128 | true if and only if the capital has a file listing the vehicle; a missing file gives false, not an exception; the capital's file is read through the cache: read and cached once if it was not cached, otherwise nothing changes |
| ResidualRates.ResidualCache.GetVehicleResidualTable | data/residual_rates.py:85-113 | a missing file is reported, otherwise the converted table or the error it raises; the capital's file is read through the cache: read and cached once if it was not cached, otherwise nothing changes |
| ResidualRates.ResidualCache.GetAvailablePeriods | data/residual_rates.py:146-149 | a missing file is reported, otherwise the ascending periods or the conversion's error; the capital's file is read through the cache: read and cached once if it was not cached, otherwise nothing changes |
| ResidualRates.ResidualCache.GetAvailableMileages | data/residual_rates.py:152-159 | a missing file is reported, otherwise the term's ascending mileages, [] for a missing term, or the conversion's error; the capital's file is read through the cache: read and cached once if it was not cached, otherwise nothing changes |
| ResidualRates.ResidualCache.GetAllVehicleIds | data/residual_rates.py:116-119 | a missing file is reported, otherwise the file's vehicle ids in file order; the capital's file is read through the cache: read and cached once if it was not cached, otherwise nothing changes |
| ResidualRates.ResidualCache.GetAvailableCapitals | data/residual_rates.py:131-143 | one id per file present, each once |
| Sorting.Insert | app.py:400 | inserting keeps the elements and adds one |
| Sorting.StableSort | app.py:400 | the sorted list is a permutation of the input |
| Sorting.InsertSorted | app.py:400 | inserting into a sorted list keeps it sorted |
| Sorting.InsertStable | app.py:400 | inserting keeps the relative order of elements that rank equal |
| Sorting.StableSortCorrect | app.py:400 | list.sort with a key: sorted, a permutation, and stable — each class of equal keys keeps its input order |
| Sorting.SortedUnique | data/vehicle_master.py:100-105 | sorted(set(s)) holds exactly the elements of s |
| Sorting.InsertUniqueSorted | data/vehicle_master.py:100-105 | adding an element to a strictly ascending list keeps it strictly ascending |
| Sorting.SortedUniqueCorrect | data/vehicle_master.py:100-105 | sorted(set(s)) is strictly ascending, free of duplicates, and holds exactly the elements of s |
| Sorting.StringLessIsStrictTotal | data/vehicle_master.py:100-105 | Python's string order (by code point, a proper prefix first) is a strict total order |
| TaxPolicies.GetOr | data/tax_policies.py:87-91 | d.get(k, default): the stored value when k is present, the default otherwise |
| TaxPolicies.PublicBondCost | data/tax_policies.py:66-102 | the reported discount rate is the region's discount, 0 for an unknown region |
| TaxPolicies.BondRateTable | data/tax_policies.py:10-52 | every bond rate is 0, 5 % or 9 %; only passenger cars buy bonds; an unknown region or type costs no bonds |
| TaxPolicies.DiscountRateRange | data/tax_policies.py:54-64 | every discount is between 0 and 9 %, and 0 for an unknown region |
| TaxPolicies.NoBondNoCost | data/tax_policies.py:87-101 | an unknown region or a vehicle type without bonds gives zero bond, discount and cost |
| TaxPolicies.ActualCostWithinBond | data/tax_policies.py:87-101 | for a non-negative price, the cost borne and the discount each lie between 0 and the bond amount, after rounding too |
| TaxPolicies.SeoulExample | data/tax_policies.py:10-101 | a 50,000,000 won passenger car in Seoul: 2,500,000 in bonds, an 8 % discount of 200,000, 2,300,000 borne |
| TaxPolicies.RegistrationFeeRule | data/tax_policies.py:105-131 | registering oneself costs 50,000; through an agent, 150,000 for a truck and 200,000 for any other type, listed or not |
| TaxPolicies.DeliveryFeeRule | data/tax_policies.py:134-154 | an unknown distance or size costs the nationwide standard 188,000, and every fee lies between 100,000 and 250,000 |
| TaxPolicies.TotalFees | data/tax_policies.py:157-204 | the summary carries the bond cost, the registration fee and the delivery fee its parts compute |
| TaxPolicies.TotalFeesExact | data/tax_policies.py:191-203 | with other fees in whole thousands, the final rounding changes nothing: the total is the plain sum of bond cost, fees and other fees |
| TaxPolicies.DeliveryThousands | data/tax_policies.py:148-154 | every delivery fee is a whole number of thousands |
| TaxPolicies.TotalFeesMonotone | data/tax_policies.py:191-203 | extra other fees never lower the total |
| TaxPolicies.AvailableRegions | data/tax_policies.py:207-209 | the eight regions of the bond table, in table order, each with a discount entry |
| Text.IntToDecimal | data/residual_rates.py:62-63 | str(i): digits, with a leading minus sign for a negative number |
| Text.IntToDecimalInjective | data/residual_rates.py:62-63 | different terms and mileages give different dictionary keys |
| Text.NatDecimalRoundTrip | data/residual_rates.py:62-63 | reading back the digits of n gives n |
| Text.IntDecimalRoundTrip | data/residual_rates.py:62-63 | int(str(i)) == i, so a key written by str() is read back by int() |
| Text.ParseInt | data/residual_rates.py:107 | int() accepts a text only if it holds a digit |
| Text.ParseRejectsLetter | data/residual_rates.py:107 | int() rejects any text containing an ASCII letter, such as a grade option name |
| Text.Strip | excel_reverse_engineering/meritz_extractor.py:325 | str.strip() removes exactly a run of whitespace at each end and leaves none there |
| Text.Upper | excel_reverse_engineering/meritz_extractor.py:326 | str.upper() keeps the length, maps each character, and leaves no lower-case ASCII letter |
| Text.Lower | excel_reverse_engineering/mg_extractor.py:214 | str.lower() keeps the length and maps each character |
| Text.LowerIdempotent | excel_reverse_engineering/mg_extractor.py:214 | lowering twice is lowering once |
| Text.Replace | excel_reverse_engineering/mg_extractor.py:245-248 | after replacing a character by text without it, the character is gone and nothing new appears |
| Text.ReplaceByChar | excel_reverse_engineering/residual_extractor.py:43 | replacing a character by a single character keeps the length and changes exactly its occurrences |
| Text.Join | excel_reverse_engineering/meritz_extractor.py:325 | joining no parts gives the empty string, one part gives that part |
| Text.JoinAbsent | excel_reverse_engineering/meritz_extractor.py:325 | a character in no part and not in the separator is not in the joined text |
| Text.SplitOnce | excel_reverse_engineering/mg_extractor.py:203-205 | split(' ', 1) gives one part when there is no space, otherwise the text before the first space and the rest, which rejoin to the original |
| Validator.Texts | core/validator.py:78 | one message per finding, in order |
| Validator.PriceErrors | core/validator.py:41-42 | the price check yields no error but the non-positive-price one |
| Validator.PriceWarnings | core/validator.py:43-46 | the price check warns only of a low or a high price |
| Validator.DownErrors | core/validator.py:54-57 | the down-payment check yields only the negative and above-price errors |
| Validator.DownWarnings | core/validator.py:58-59 | the down-payment check warns only of a payment above half the price |
| Validator.ResidualErrors | core/validator.py:62-64 | the residual check yields only the out-of-range error |
| Validator.ResidualWarnings | core/validator.py:65-68 | the residual check warns only of a low or a high residual |
| Validator.MileageWarnings | core/validator.py:71-74 | the mileage check warns only of an unusual mileage |
| Validator.CheckPrice | core/validator.py:40-46 | the price check appends its findings to the error and warning lists |
| Validator.CheckDownPayment | core/validator.py:53-59 | the down-payment check appends its findings to the lists |
| Validator.CheckResidual | core/validator.py:61-68 | the residual check appends its findings to the lists |
| Validator.CheckMileage | core/validator.py:70-74 | the mileage check appends its warning to the list |
| Validator.ValidateLeaseInput | core/validator.py:14-83 | the checks run in order and their lists decide the outcome |
| Validator.LeaseAcceptedIff | core/validator.py:37-83 | an input is accepted if and only if the price is positive, the term is 24, 36, 48 or 60, the down payment lies in [0, price], and a given residual lies in [0, 1]; warnings never reject |
| Validator.MileageNeverRejects | core/validator.py:70-74 | the mileage decides neither acceptance nor the rejection message |
| Validator.MileageWarning | core/validator.py:70-74 | an accepted input reports an unusual mileage if and only if a mileage outside the four common ones is given |
| Validator.Located | core/validator.py:37-74 | each check's findings land in the error or the warning list and nowhere else |
| Validator.PriceRules | core/validator.py:41-46 | a price of 0 or less is an error; below 10,000,000 or above 500,000,000 only a warning |
| Validator.DownPaymentRules | core/validator.py:54-59 | a negative down payment or one above the price is an error; one above half the price is only a warning |
| Validator.ResidualRules | core/validator.py:62-68 | a residual outside [0, 1] is an error; below 10 % or above 80 % only a warning; no residual, no finding |
| Validator.RejectionMessage | core/validator.py:77-78 | a rejection joins the errors with "; " in check order |
| Validator.RecommendDownPayments | core/validator.py:86-121 | one recommendation per share of 0, 10, 20 and 30 %, each the price times the share and labelled by it; the income changes nothing |
| Validator.RecommendationTable | core/validator.py:103-109 | the amounts are 0, 10, 20 and 30 % of the price and the labels read "0% 선납" to "30% 선납" |
| Validator.ValidateComparisonInputs | core/validator.py:124-159 | the comparison checks decide the outcome from the two counts alone |
| Validator.ComparisonRules | core/validator.py:142-159 | a comparison is accepted if and only if at least one vehicle and one capital are chosen; more than five vehicles only warns |
| Validator.DataAvailability | core/validator.py:162-194 | a rate if the lookup finds one; unavailable with the lookup's ValueError message, or for a missing file; the TypeError of a null entry escapes |
| Validator.UnknownVehicleUnavailable | core/validator.py:182-194 | a vehicle missing from a capital's file is unavailable, with the message naming the lookup |
| VehicleMaster.VehicleLookup | data/vehicle_master.py:29-47 | a vehicle is found if and only if its id is in the catalog, and then it is the stored record; otherwise the ValueError naming the id |
| VehicleMaster.PriceOrdersArePreorders | data/vehicle_master.py:83 | ordering by price is a total preorder |
| VehicleMaster.Brands | data/vehicle_master.py:100-104 | the brands are strictly ascending and are exactly the brands of the records |
| VehicleMaster.VehicleListCorrect | data/vehicle_master.py:50-85 | the list holds exactly the records passing both filters, sorted by price, with catalog order among equal prices |
| VehicleMaster.UnfilteredListsAll | data/vehicle_master.py:69-72 | without a brand filter, or with an empty one, and without an import filter, every record is listed |
| VehicleMaster.TrimsCorrect | data/vehicle_master.py:127-154 | the trims are exactly the records of that brand and model, sorted by price |
| VehicleMaster.ModelsCorrect | data/vehicle_master.py:107-124 | the models are strictly ascending and are exactly the models of that brand's records |
| VehicleMaster.SearchCorrect | data/vehicle_master.py:157-184 | at most `limit` results for a non-negative limit, a prefix of the matches in catalog order, each one matching |
| VehicleMaster.SearchIgnoresCase | data/vehicle_master.py:169-176 | a keyword and its lower-cased form find the same vehicles |
| VehicleMaster.EmptyKeywordMatchesAll | data/vehicle_master.py:174-176 | the empty keyword matches every vehicle |
| VehicleMaster.ListVehicles | data/vehicle_master.py:64-85 | the filter loop followed by the sort yields the vehicle list |
| VehicleMaster.CollectModels | data/vehicle_master.py:117-124 | the loop collecting the brand's models, then sorted without duplicates, yields the model list |
| VehicleMaster.CollectTrims | data/vehicle_master.py:138-154 | the loop and the sort yield the trim list |
| VehicleMaster.SearchCatalog | data/vehicle_master.py:168-184 | the matching loop and the cut to `limit` yield the search result |
| VehicleMaster.VehicleCatalog.constructor | data/vehicle_master.py:11 | the cache starts empty over the file on disk |
| VehicleMaster.VehicleCatalog.Load | data/vehicle_master.py:14-26 | the file is read the first time only, and a missing file is FileNotFoundError; afterwards the cache holds the catalog whenever the file exists |
| VehicleMaster.VehicleCatalog.GetVehicle | data/vehicle_master.py:29-47 | a missing file is passed on, otherwise the lookup; afterwards the cache holds the catalog when the file exists, and a cached catalog is not read again |
| VehicleMaster.VehicleCatalog.GetVehicleList | data/vehicle_master.py:50-85 | a missing file is passed on, otherwise the filtered, price-sorted list; afterwards the cache holds the catalog when the file exists, and a cached catalog is not read again |
| VehicleMaster.VehicleCatalog.GetAllVehicleIds | data/vehicle_master.py:88-91 | a missing file is passed on, otherwise every id of the catalog in file order; afterwards the cache holds the catalog when the file exists, and a cached catalog is not read again |
| VehicleMaster.VehicleCatalog.ValidateVehicleExists | data/vehicle_master.py:94-97 | a missing file is passed on, otherwise true if and only if the vehicle can be looked up; afterwards the cache holds the catalog when the file exists, and a cached catalog is not read again |
| VehicleMaster.VehicleCatalog.GetBrands | data/vehicle_master.py:100-104 | a missing file is passed on, otherwise the sorted distinct brands; afterwards the cache holds the catalog when the file exists, and a cached catalog is not read again |
| VehicleMaster.VehicleCatalog.GetModelsByBrand | data/vehicle_master.py:107-124 | a missing file is passed on, otherwise the brand's sorted distinct models; afterwards the cache holds the catalog when the file exists, and a cached catalog is not read again |
| VehicleMaster.VehicleCatalog.GetTrimsByBrandModel | data/vehicle_master.py:127-154 | a missing file is passed on, otherwise the trims sorted by price; afterwards the cache holds the catalog when the file exists, and a cached catalog is not read again |
| VehicleMaster.VehicleCatalog.SearchVehicles | data/vehicle_master.py:157-184 | a missing file is passed on, otherwise the search result; afterwards the cache holds the catalog when the file exists, and a cached catalog is not read again |

## Left out

- File, JSON and Excel I/O: reading the JSON files and workbooks, sheet discovery, `iter_rows` and `cell` plumbing, and the extractors' `main()` functions that write JSON. Files are a map parameter, and sheets are cell grids.
- Console output (`print`) of the extractors and the calculators' `main()` demonstrations.
- `calculate_irr` in `core/calculator.py`: an iterative floating-point Newton–Raphson search.
- `numpy_financial.pmt`: a foreign library. The model uses its closed-form PMT formula over exact reals.
- Floating-point rounding error, and Python's half-to-even ties in `round`. `Numeric.Round1000` and `Numeric.Round4` state only nearest rounding, and their definitions break ties upwards.
- Boolean and date worksheet cells, and openpyxl's cell type coercion. Cells are numbers, strings or empty.
- Unicode case mapping and whitespace: `upper`, `lower` and `strip` are modelled on ASCII letters and ASCII white space. Korean text passes through unchanged, as in Python.
- The Streamlit user interface of `app.py` outside lines 241–400 and 562–588: page layout, widgets, rendering, the per-term and per-mileage tables and the statistics screen.
- `tools/` (Excel inspection and diagnostic scripts) and `tests/` (print-only scripts). The worked examples in the lemmas come from the latter.
- ResidualRates.ResidualCache.GetAvailableCapitals: the directory glob lists the files in directory order. The model lists each capital with a file exactly once and leaves the order open.
- The `vehicle_type` argument of `get_vehicle_list`: the source accepts it and ignores it, so the model has no such parameter.
- The message text of a `FileNotFoundError` (the file path) is not modelled. A missing file is a constructor of the error type.
- The concurrency and lifetime of the process-wide caches: one cache object stands for one process.
- Calculator.CalculateOperatingLease: requires a term of at least one month and, in annuity mode, a non-negative rate. The source raises ZeroDivisionError at 0 months and still evaluates negative terms and rates. Every call in the comparison passes a term of 24, 36, 48 or 60 months in straight-line mode.
- Text.ParseInt: rejects underscore digit grouping ("1_000") and non-ASCII digits, which Python's `int()` accepts. Keys written by the extractors never use either.

## Findings

| source | as written | input that shows it | evidently intended | confidence | as-written member | corrected member |
|---|---|---|---|---|---|---|
| app.py:268-289 | the high-residual lookup is wrapped in `except ValueError`, but a `null` entry for the grade makes `get_residual_rate` raise `TypeError` (`None[...]`) | an MG vehicle without the premium option: `snk_premium` is `null` while `snk_normal` holds the rate for the term and mileage | fall back to `snk_normal` and price the vehicle, as the comment on the handler says | not executed | Comparison.NullPremiumFailsAtMg | Comparison.NullPremiumUsesNormal |
| data/residual_rates.py:146-149 | `get_available_periods` goes through `get_vehicle_residual_table`, which calls `int()` on the top-level keys of a vehicle's entry | any vehicle in a file written by the extractors, whose entry is keyed by grade option (`"west_normal"`, ...) | list the terms stored under a grade option in ascending order | not executed | ResidualRates.AvailablePeriodsFailOnGradeKeys | ResidualRates.PeriodsOfGrade |
