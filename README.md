# Health screening engine: a verified Dafny model

The HEALTH-SCREENING repository turns a company's screening workbook into two kinds of
report and runs a small portal where staff fetch their own report. This project models the
parts of that pipeline that make decisions. It covers:

- the threshold classifiers for blood pressure, blood glucose, cholesterol, BMI (two
  variants) and PSA (`HEALTH_SCREEN.py`);
- the cohort aggregation of `analyze_staff_data` and the `analyze_*` functions: which
  metrics are available, value counts, percentages, gender tables, mean ages, age bands;
- the individual profile: `get_individual_data` and `analyze_individual_health`;
- the decisions inside the individual PDF report (`individual_report_generator.py`): the
  health score and its status, the PSA guard, the overweight "bright side" message, the
  cross-reference lines, the order of sections and tests, and the chronic-disease
  programme (CDR) paragraph;
- the customer database of both portals (`medical_portal.py`,
  `medical_portal_production.py`): loading `customers.csv` and verifying credentials;
- `generate_customer_csv`, which builds `customers.csv` from the workbook.

Modules, one per file:

| file | module | models |
|---|---|---|
| wrappers.dfy | Wrappers | `Option` and `Result` |
| text.dfy | Text | `strip`, `upper`, `lower`, one-character `replace`, `str()` of a cell |
| classify.dfy | Classify | the `categorize_*` rules and the PSA interpretation |
| tally.dfy | Tally | `value_counts`, sums over dictionaries, percentages |
| records.dfy | Records | a workbook row with missing cells |
| cohort.dfy | Cohort | one `analyze_*` function over its labelled, filtered frame |
| population.dfy | Population | `analyze_staff_data` |
| individual.dfy | Individual | `get_individual_data`, `analyze_individual_health` |
| report_logic.dfy | ReportLogic | the decision logic of the individual report |
| customer_file.dfy | CustomerFile | `customers.csv` rows and dictionary assignment in row order |
| portal_production.dfy | PortalProduction | `CustomerDatabase` of the production portal |
| portal.dfy | Portal | `CustomerDatabase` of the development portal |
| customer_export.dfy | CustomerExport | `generate_customer_csv` |

Readings are exact `real`s. Missing spreadsheet cells (NaN) are `None` or `Missing`.
Where the source changes state step by step, the model does too:

- The customer databases are classes whose constructor runs `LoadCustomers`, a row loop.
- The health score, `normal_params`, the `cross_ref_text` lines, `available_tests`,
  `analyze_individual_health` and `generate_customer_csv` are methods with loops or
  sequential updates.

Each of those methods is proved equal to a specification function. The properties are then
proved about that function.

## Model

| member | source | states |
|---|---|---|
| Classify.CategorizeBp | HEALTH_SCREEN.py:10-21 | each category is the exact region of the systolic/diastolic plane it covers; NORMAL is the box [100,141) x [60,91) |
| Classify.BpMonotone | HEALTH_SCREEN.py:14-21 | raising either reading never lowers the category |
| Classify.BpBoundaries | HEALTH_SCREEN.py:14-21 | 160/99 is MODERATE HIGH, 90/120 is LOW, 140.5/90.5 is NORMAL, and further sample points |
| Classify.CategorizeGlucose | HEALTH_SCREEN.py:61-67 | DIABETIC iff above 125, PRE_DIABETIC iff in [100,125], NORMAL iff below 100 |
| Classify.GlucoseMonotone | HEALTH_SCREEN.py:61-67 | a higher reading never gets a lower category |
| Classify.CategorizeCholesterol | HEALTH_SCREEN.py:107-113 | HIGH iff above 240, BORDERLINE HIGH iff in [200,239], NORMAL iff below 200 or in the gap (239,240] |
| Classify.CholesterolGap | HEALTH_SCREEN.py:107-113 | 239 is BORDERLINE HIGH while 239.5 and 240 are NORMAL, so the rule is not monotone |
| Classify.CategorizePopulationBmi | HEALTH_SCREEN.py:153-161 | OBESITY iff above 30, OVERWEIGHT iff in [25,30], NORMAL iff in [18.5,25), BELOW NORMAL iff below 18.5 |
| Classify.PopulationBmiMonotone | HEALTH_SCREEN.py:153-161 | a higher BMI never gets a lower category |
| Classify.CategorizeIndividualBmi | HEALTH_SCREEN.py:464-473 | UNDERWEIGHT below 18.5, NORMAL on [18.5,24.9], OVERWEIGHT on [25,29.9], OBESE otherwise, including the gaps (24.9,25) and (29.9,30) |
| Classify.BmiVariantsAgreeOutsideGaps | HEALTH_SCREEN.py:153-161 | the two BMI tables name the same band iff the BMI is outside (24.9,25) and (29.9,30] |
| Classify.BmiBoundaries | HEALTH_SCREEN.py:466-473 | population 25 and 30 are OVERWEIGHT; individual 24.95 and 29.95 are OBESE |
| Classify.PsaResult | HEALTH_SCREEN.py:553-563 | text is upper-cased; a reading is POSITIVE iff above 4.0 and NEGATIVE iff at most 4.0 |
| Tally.CountsTotal | HEALTH_SCREEN.py:351 | counts zero-filled over a set of labels that covers the column add up to the column's length |
| Tally.Distribution | HEALTH_SCREEN.py:27 | value_counts has an entry exactly for the values that occur, holding their positive multiplicity |
| Tally.DistributionTotal | HEALTH_SCREEN.py:27 | the value counts add up to the column's length |
| Tally.PercentMeaning | HEALTH_SCREEN.py:28 | a percentage times its denominator is the count times 100; a part lies in [0,100] |
| Tally.PercentagesTotal | HEALTH_SCREEN.py:28 | the percentages add up to the counts' total as a share of the denominator |
| Tally.PercentagesOfWholeTotal | HEALTH_SCREEN.py:28 | when the counts add up to the denominator, the percentages add up to exactly 100 |
| Tally.SumRemove | HEALTH_SCREEN.py:31-32 | a dictionary's sum does not depend on the order its keys are taken in |
| Tally.SumShares | HEALTH_SCREEN.py:32 | dividing each cell by one denominator divides the row's sum by it |
| Cohort.OfGenderSize | HEALTH_SCREEN.py:31 | a gender group has as many rows as that gender occurs in the GENDER column |
| Cohort.Mean | HEALTH_SCREEN.py:35 | the mean is missing iff there is nothing to average, and otherwise times the count gives the total |
| Cohort.MeanBetween | HEALTH_SCREEN.py:35 | a mean lies between the smallest and the largest value it averages |
| Cohort.DistributionEntries | HEALTH_SCREEN.py:27 | a category has an entry iff some row carries it, holding the number of rows that carry it |
| Cohort.DistributionAddsUp | HEALTH_SCREEN.py:27-28 | the counts add up to the frame's length and the percentages to 100 |
| Cohort.DistributionPercent | HEALTH_SCREEN.py:28 | each overall percentage is the category's count over the frame's length, times 100 |
| Cohort.GenderTableShape | HEALTH_SCREEN.py:31 | the gender table has a row exactly for each gender that occurs, holding that group's count per column |
| Cohort.GenderTableTotals | HEALTH_SCREEN.py:31-32 | a gender row adds up to its group's size and its percentages to 100 |
| Cohort.GenderPercent | HEALTH_SCREEN.py:32 | each gender cell's percentage divides by that gender's own total |
| Cohort.AnalyzeByGender | HEALTH_SCREEN.py:31-32 | in a metric's analysis every gender row adds up to its group and to 100 percent |
| Cohort.GroupSizes | HEALTH_SCREEN.py:31 | the gender groups' sizes are value_counts of the GENDER column |
| Cohort.MissingGenderExcluded | HEALTH_SCREEN.py:31 | rows with no gender are in no gender row; the gender rows hold all rows only when no gender is missing |
| Cohort.AnalyzeAverageAge | HEALTH_SCREEN.py:35 | mean ages exist for exactly the categories counted; a mean is missing iff none of its rows has an age, and otherwise lies within the ages |
| Population.CleanUrine | HEALTH_SCREEN.py:309-315 | a text cell is kept iff it is not blank once stripped, and is then stripped and upper-case |
| Population.AgeGroupBins | HEALTH_SCREEN.py:341-344 | an age gets band i iff it lies in the right-closed interval (edge i, edge i+1] |
| Population.AgeGroupOutside | HEALTH_SCREEN.py:341-344 | ages of at most 0, above 70 or missing get no band; every band is one of the six labels |
| Population.LabelBy | HEALTH_SCREEN.py:378 | the filtered frame is empty iff no row holds the metric's readings |
| Population.LabelByMembers | HEALTH_SCREEN.py:378 | the filtered frame holds exactly the accepted rows, labelled, with their gender and age |
| Population.AvailabilityOfReadings | HEALTH_SCREEN.py:371-397 | blood pressure, blood sugar and BMI are analysed iff some row holds all of that metric's readings, otherwise None |
| Population.AvailabilityOfOptionalColumns | HEALTH_SCREEN.py:297-320 | cholesterol is analysed iff its column exists and holds a reading; urine iff both columns exist and some row has both results non-blank |
| Population.UrineResultsAsCleaned | HEALTH_SCREEN.py:202-203 | analyze_urine's second upper() changes nothing, and the two urine frames accept the same rows |
| Population.GenderCountEntries | HEALTH_SCREEN.py:327-331 | one gender count per gender that occurs, holding its number of rows, with percentage count / head count x 100 |
| Population.GenderCountTotals | HEALTH_SCREEN.py:327-331 | the gender counts cover the rows with a gender; their percentages add up to 100 exactly when no gender is missing |
| Population.LabelByAll | HEALTH_SCREEN.py:378 | the filtered frame is as long as the workbook iff every row passes the filter |
| Population.AgeDistribution | HEALTH_SCREEN.py:350-352 | all six bands are listed, zero-filled; counts cover the banded rows; percentages divide by the head count |
| Population.BloodPressureOnFilteredRows | HEALTH_SCREEN.py:377-379 | the analysis runs on the rows with both readings, labelled by categorize_bp; counts add up to that frame and percentages to 100 |
| Population.BloodSugarOnFilteredRows | HEALTH_SCREEN.py:383-385 | the same for blood glucose |
| Population.CholesterolOnFilteredRows | HEALTH_SCREEN.py:389-391 | the same for cholesterol |
| Population.BmiOnFilteredRows | HEALTH_SCREEN.py:395-397 | the same for BMI |
| Population.UrineOnFilteredRows | HEALTH_SCREEN.py:401-403 | both urine analyses run on the rows with both cleaned results; each adds up to that frame and to 100 percent |
| Population.UrineFramesAlign | HEALTH_SCREEN.py:402 | the glucose and protein frames have the same length and are empty together |
| Population.AgeBandsCovered | HEALTH_SCREEN.py:344-347 | every banded row carries one of the six labels |
| Population.LabelByGender | HEALTH_SCREEN.py:347 | a gender occurs in a filtered frame iff some accepted row has it |
| Population.AgeByGenderRows | HEALTH_SCREEN.py:347 | the age-by-gender table has a row for every gender that occurs in the workbook, whether or not any of its ages is in a band, and each row lists all six bands |
| Population.BandedGenderRows | HEALTH_SCREEN.py:347 | a gender's row is all zeros iff none of that gender's rows has an age in a band |
| Population.AgeByGenderTotals | HEALTH_SCREEN.py:347-348 | each row adds up to that gender's banded rows; its percentages are NaN (None) when that number is zero, and otherwise add up to 100 |
| Population.AverageAgeByGender | HEALTH_SCREEN.py:337 | the mean age by gender has an entry for each gender that occurs; it is NaN (None) iff none of that gender's rows has an age, and otherwise lies within their ages |
| Individual.GetIndividualData | HEALTH_SCREEN.py:431-437 | a ValueError with its message iff no row has the ENROLLEE ID; otherwise the first row that has it |
| Individual.Profile | HEALTH_SCREEN.py:457-571 | a metric's key is present iff all its readings are present |
| Individual.BmiCategoryOf | HEALTH_SCREEN.py:465-473 | the inline chain is the individual BMI rule |
| Individual.BpCategoryOf | HEALTH_SCREEN.py:488-496 | the repeated chain is categorize_bp |
| Individual.GlucoseCategoryOf | HEALTH_SCREEN.py:509-515 | the repeated chain is categorize_glucose |
| Individual.CholesterolCategoryOf | HEALTH_SCREEN.py:528-534 | the repeated chain is categorize_cholesterol |
| Individual.PsaResultOf | HEALTH_SCREEN.py:554-562 | the inline PSA interpretation is PsaResult |
| Individual.AnalyzeIndividualHealth | HEALTH_SCREEN.py:457-571 | the dictionary filled key by key is the profile |
| Individual.CrossReferencesCopied | HEALTH_SCREEN.py:475-545 | each entry carries the other metrics' raw readings exactly as the row holds them, missing ones included |
| Individual.UrineEntryUpperCase | HEALTH_SCREEN.py:546-551 | urine results are upper-cased but neither stripped nor dropped when blank |
| Individual.PsaEntryResult | HEALTH_SCREEN.py:553-569 | a reading is interpreted against 4.0 and text is kept, upper-cased |
| ReportLogic.ReadingResultNormal | individual_report_generator.py:180 | a reading's result is already stripped and upper-case and is NEGATIVE or POSITIVE |
| ReportLogic.ValidResultNotBlank | individual_report_generator.py:179-180 | a result that reads NEGATIVE or POSITIVE is not blank |
| ReportLogic.PsaGuardOnProfile | individual_report_generator.py:1354-1357 | on a profile the guard passes iff the value is a reading or text that reads NEGATIVE or POSITIVE; whitespace-only text never passes |
| ReportLogic.TextGuard | individual_report_generator.py:1354-1355 | for text, "not blank and the upper-cased result is valid" is the same as "the text is valid" |
| ReportLogic.PsaNegativeOnProfile | individual_report_generator.py:183-184 | a PSA counts as normal iff the reading is at most 4.0 or the text reads NEGATIVE |
| ReportLogic.ItemScore | individual_report_generator.py:164-184 | one item adds at most 2 tests and never more normal results than tests |
| ReportLogic.CountItem | individual_report_generator.py:165-184 | the loop body, with the source's label tests and PSA guard, adds the item's score |
| ReportLogic.HealthScore | individual_report_generator.py:161-184 | the counting loop over the dictionary's items returns the score of the items |
| ReportLogic.ScoreConcat | individual_report_generator.py:164 | scores add up over concatenated items |
| ReportLogic.ScoreBounded | individual_report_generator.py:161-184 | the normal count never exceeds the number of tests, which is at most twice the items |
| ReportLogic.ScoreOfPart | individual_report_generator.py:164-184 | one metric's items score that metric's per-test tally |
| ReportLogic.ScoreClosedForm | individual_report_generator.py:161-184 | the loop's score is the per-metric count: one test per reading present, two for urine, one for a PSA that passes the guard |
| ReportLogic.StatusThresholds | individual_report_generator.py:187-201 | no tests gives 0 and Needs Attention; otherwise Excellent iff at least 4 in 5 are normal, Good iff 3 in 5 but fewer than 4, Needs Attention otherwise |
| ReportLogic.RatioThresholds | individual_report_generator.py:193-196 | the 80 and 60 percent thresholds compared without division |
| ReportLogic.AllNormalIsExcellent | individual_report_generator.py:187-195 | all tests normal is Excellent |
| ReportLogic.PaddedUrineNotNormal | individual_report_generator.py:172-175 | a padded " negative" urine result is not counted as normal |
| ReportLogic.BpLevel | individual_report_generator.py:712-716 | normal iff a reading is missing or both are at most 120/80; high iff above 140 or 90 |
| ReportLogic.GlucoseLevel | individual_report_generator.py:718-722 | normal iff missing or at most 100; high iff above 125 |
| ReportLogic.CholesterolLevel | individual_report_generator.py:724-728 | normal iff missing or at most 200; high iff above 240 |
| ReportLogic.NormalParameters | individual_report_generator.py:731-737 | each parameter is listed iff its level is normal; the length counts the normal levels |
| ReportLogic.NormalParams | individual_report_generator.py:731-737 | the list built by append is NormalParameters |
| ReportLogic.BrightSideByCount | individual_report_generator.py:739-747 | the message is chosen by how many of the three readings are normal, and names those |
| ReportLogic.BrightSideWithoutReadings | individual_report_generator.py:708-747 | with no readings at all the message says all three are normal |
| ReportLogic.CrossRefs | individual_report_generator.py:777-791 | lines appear only for present readings of the section's order, each flagged by its metric's cut-off |
| ReportLogic.CrossRefsOfThree | individual_report_generator.py:777-791 | a three-metric order writes its possible lines in that order |
| ReportLogic.CrossRefsComplete | individual_report_generator.py:777-791 | every metric of the order with a present reading gets a line |
| ReportLogic.BmiSectionCrossRefs | individual_report_generator.py:777-791 | the += lines of the BMI section: blood pressure, blood sugar, cholesterol |
| ReportLogic.BpSectionCrossRefs | individual_report_generator.py:913-927 | the lines of the blood pressure section: BMI, blood sugar, cholesterol |
| ReportLogic.SugarSectionCrossRefs | individual_report_generator.py:1045-1059 | the lines of the blood sugar section: BMI, blood pressure, cholesterol |
| ReportLogic.CholesterolSectionCrossRefs | individual_report_generator.py:1179-1193 | the lines of the cholesterol section: BMI, blood pressure, blood sugar |
| ReportLogic.BpJudgedTwice | individual_report_generator.py:712-781 | a blood pressure the bright side calls normal is never flagged by the cross reference, while 130/85 is normal in the cross reference only |
| ReportLogic.ReportSections | individual_report_generator.py:1571-1592 | a section appears iff its key is present, and the PSA section also needs the guard |
| ReportLogic.SectionCount | individual_report_generator.py:1571-1592 | the report has one section per metric present, counting PSA only when its guard passes |
| ReportLogic.SectionsOrdered | individual_report_generator.py:1571-1592 | the sections appear in the fixed order BMI, Blood Pressure, Blood Sugar, Cholesterol, Urine Analysis, PSA |
| ReportLogic.PsaGuard | individual_report_generator.py:1479-1481 | the inline has_psa_value and valid_result tests are the PSA guard |
| ReportLogic.AvailableTests | individual_report_generator.py:1464-1482 | available_tests lists the shown sections' names, in order |
| ReportLogic.ScoreCountsShownSections | individual_report_generator.py:161-184 | the score counts one test per shown section, and urine twice |
| ReportLogic.CdrOnProfile | individual_report_generator.py:1487-1528 | the CDR paragraph appears iff the blood pressure is MODERATE HIGH or HIGH or the glucose is at least 100 |
| Text.Trim | medical_portal_production.py:48-50 | strip() leaves no whitespace at either end and leaves a string without such whitespace alone |
| Text.TrimInfix | medical_portal_production.py:48-50 | strip() returns the infix s[i..j] of the input where everything before i and from j on is whitespace |
| Text.TrimIdempotent | medical_portal_production.py:48-51 | stripping twice is stripping once |
| Text.PrefixNeverStrippedTo | medical_portal.py:66 | stripping a stripped phone with a non-space character in front never gives the stored phone back |
| Text.NormalizeEmailIgnoresCase | medical_portal_production.py:62 | strip().lower() of an upper-cased email is strip().lower() of the email |
| Text.PaddingStripped | medical_portal_production.py:62-63 | leading whitespace does not survive strip() |
| CustomerFile.AssignKeys | medical_portal_production.py:45-47 | the keys of a dictionary filled in row order are exactly the rows' keys |
| CustomerFile.AssignLastWins | medical_portal_production.py:45-47 | each key holds the value of the last row with that key |
| PortalProduction.CustomerOfNormalized | medical_portal_production.py:47-52 | a loaded record is stripped with a lower-case email; the default report file is the stripped "<ID>.pdf" |
| PortalProduction.LoadedRecords | medical_portal_production.py:36-57 | the keys are the rows' str(ID) when the columns exist, each holding the record built from the last row with that key |
| PortalProduction.LoadedNormalized | medical_portal_production.py:45-52 | every loaded record is in normal form |
| PortalProduction.CustomerDatabase.LoadCustomers | medical_portal_production.py:37-57 | the row loop returns the loaded dictionary, and {} when a column is missing |
| PortalProduction.CustomerDatabase.constructor | medical_portal_production.py:33-35 | the database holds the loaded dictionary, every record in normal form |
| PortalProduction.PhoneComparison | medical_portal_production.py:63-83 | the source's comparison holds iff the phones are equal or one is the other with one '0' put in front of a number not starting with '0' |
| PortalProduction.PhonesMatchSymmetric | medical_portal_production.py:76-83 | the phone comparison does not depend on which side is stored |
| PortalProduction.LeadingZeroTolerated | medical_portal_production.py:65-83 | "0801" matches a stored "801" and the other way round |
| PortalProduction.OneZeroOnly | medical_portal_production.py:66-67 | only one zero is removed: "0080" becomes "080", and "0080" and "080" do not match |
| PortalProduction.CustomerDatabase.VerifyCustomer | medical_portal_production.py:59-85 | a record is returned iff the stripped ID is a key, the stripped lower-case email matches and the phones match; it is the stored record |
| PortalProduction.CustomerDatabase.GetCustomerById | medical_portal_production.py:87-89 | a plain lookup: the record iff the ID is a key, else None |
| PortalProduction.VerifiedKeysStripped | medical_portal_production.py:61-71 | only a key without surrounding whitespace can ever verify |
| PortalProduction.EmailCaseIgnored | medical_portal_production.py:62 | verification does not depend on the case of the email given |
| PortalProduction.StoredCredentialsVerify | medical_portal_production.py:59-85 | a loaded customer verifies with the stored email, given with any leading padding, and the stored phone |
| Portal.LoadedRecords | medical_portal.py:44-60 | when every row has a name and an email, keys are the rows' str(ID), each holding the last row's record |
| Portal.UnreadableRowEmpties | medical_portal.py:52-60 | one row without a name or email makes the load return {} |
| Portal.LoadedNormalized | medical_portal.py:51-56 | every loaded email is stripped and lower-case and every phone stripped |
| Portal.BuildCustomer | medical_portal.py:51-56 | the dictionary literal of one row is that row's record |
| Portal.CustomerDatabase.LoadCustomers | medical_portal.py:44-60 | the row loop returns the loaded dictionary, or {} at the first row that raises |
| Portal.CustomerDatabase.constructor | medical_portal.py:40-42 | the database holds the loaded dictionary, every record in normal form |
| Portal.CustomerDatabase.VerifyCustomer | medical_portal.py:62-72 | a record is returned iff the stripped ID is a key and the stripped lower-case email and stripped phone equal the stored ones exactly |
| Portal.CustomerDatabase.GetCustomerById | medical_portal.py:74-76 | a plain lookup: the record iff the ID is a key, else None |
| Portal.LeadingZeroRefused | medical_portal.py:64-72 | unlike production, a customer whose ID is given as stored is refused when the stored phone is given with an extra leading "0" ("0801" for a stored "801") |
| Portal.EmailCaseIgnored | medical_portal.py:65 | verification does not depend on the case of the email given |
| Portal.StoredCredentialsVerify | medical_portal.py:62-72 | a loaded customer verifies with the stored email, given with any leading padding, and the stored phone |
| CustomerExport.ForbiddenCharsListed | generate_customer_csv.py:42 | the nine characters the cleaner replaces are exactly / \ : * ? " < > and the vertical bar |
| CustomerExport.CleanIdPerChar | generate_customer_csv.py:42 | cleaning keeps the length and replaces each forbidden character by '_' and nothing else |
| CustomerExport.CleanIdSafe | generate_customer_csv.py:42 | a cleaned ID holds no forbidden character, and cleaning is idempotent |
| CustomerExport.CleanIdKeepsSafeIds | generate_customer_csv.py:42 | an ID with no forbidden character is left unchanged |
| CustomerExport.PhoneOf | generate_customer_csv.py:49-51 | "Not Provided" without a TEL NO column or for a blank or "nan" value, otherwise the stripped value |
| CustomerExport.FileNameSafe | generate_customer_csv.py:54 | a cleaned ID plus ".pdf" holds no forbidden character |
| CustomerExport.LineFileName | generate_customer_csv.py:41-54 | the report file name is the cleaned ID plus ".pdf", four characters longer than the ID, with no forbidden character |
| CustomerExport.ExportStep | generate_customer_csv.py:35-62 | one more row appends its line iff it has an ID, a name and an email |
| CustomerExport.KeptIndices | generate_customer_csv.py:37-38 | the kept positions are valid, complete and strictly increasing |
| CustomerExport.KeptIndicesComplete | generate_customer_csv.py:37-38 | every complete row's position is kept |
| CustomerExport.KeptByIndex | generate_customer_csv.py:35-38 | the k-th kept row is the row at the k-th kept position |
| CustomerExport.ExportByIndex | generate_customer_csv.py:35-62 | the k-th line is the line of the k-th complete row, so order is kept |
| CustomerExport.ExportEmpty | generate_customer_csv.py:35-62 | no line is written iff no row is complete |
| CustomerExport.BuildLine | generate_customer_csv.py:41-62 | the loop body's statements build the row's line and its cleaned ID |
| CustomerExport.GenerateCustomerCsv | generate_customer_csv.py:11-80 | without a required column it returns False and writes nothing; otherwise it writes the complete rows' lines in order and returns True iff there is at least one |

## Left out

- Rounding: `.round(2)` on percentages and mean ages is floating point. Percentages and
  means are exact reals.
- Division by zero: a percentage over an empty denominator is NaN in pandas. `Tally.Percent`
  gives 0, and every lemma about percentages requires a positive denominator. An analysed
  frame is never empty, because a metric is analysed only when some row holds it. The one
  zero denominator the source does meet, a row of zeros in the age-by-gender table, is
  modelled: that row's percentages are `None`.
- pandas I/O and coercion:
  - `read_excel`, `read_csv`, `to_csv`, and `to_numeric(errors='coerce')` are not modelled.
    Workbooks and CSV files are given as typed rows whose cells may be missing.
  - In the customer files, a number in the ID or phone column is modelled by the string
    `str()` gives for it.
  - A missing customers file (`{}` in the production portal) is the same as a load that
    raises, and is not a separate input.
- Text: `strip`, `upper` and `lower` are modelled on ASCII letters and ASCII whitespace
  only. Unicode case mapping and Unicode whitespace are left out.
- Dictionary layout: `to_dict()` nests the gender tables column-first. The model keeps them
  row by row, with the same cells.
- Category columns: the columns added in place to `data_df` (the categories, `AGE_GROUP`,
  the cleaned urine columns) live on copies, and the model keeps only their effect on the
  returned dictionaries.
- pandas versions: the gender tables are taken with every category of the gendered rows as a
  column. The age-by-gender table has all six bands and a row for every gender of the
  workbook, as the categorical `groupby`'s `observed=False` default gives. Other pandas
  versions can drop empty bands and zero rows.
- The printed summaries of `analyze_staff_data` are left out (printing only).
- CleanUrine, UrineResultsAsCleaned, UrineOnFilteredRows: a urine cell is text or missing.
  A cell holding a number is not modelled. In the source, `_clean_urine_value`
  (HEALTH_SCREEN.py:309-315) keeps such a number, and `.str.upper()`
  (HEALTH_SCREEN.py:202-203) then turns it into NaN. That row drops out of the urine counts
  and gender tables, so the source's urine counts can fall short of the frame's length.
- GetIndividualData: the ENROLLEE ID column is compared as text. When pandas reads that
  column as numbers, `data_df['ENROLLEE ID'] == enrollee_id` (HEALTH_SCREEN.py:431) never
  equals the entered string. The source then raises its ValueError where the model returns
  the row.
- Rendering: all reportlab drawing, paragraphs, tables, charts and images. Only the
  decisions the report takes are modelled. `report_generator.py` is not part of this model.
- Web and storage: the Flask routes, sessions, logging, and the database and storage
  modules are not part of this model.
- The interactive menu of `HEALTH_SCREEN.py` is not modelled, apart from the enrollee-ID
  cleaning at line 652. That cleaning is the same replacement chain as
  `CustomerExport.CleanId`.
- Behaviour of the code worth knowing, all modelled as the code has it:
  - An age of exactly 0 gets no band: `pd.cut` with `right=True` excludes the lowest edge
    (HEALTH_SCREEN.py:344).
  - A whitespace-only PSA text is not NaN, so it still creates a `psa` entry
    (HEALTH_SCREEN.py:553-564). The report's guard then hides it.
  - A population BMI of exactly 25 is OVERWEIGHT, because the OVERWEIGHT test comes first
    (HEALTH_SCREEN.py:156-157).
  - A padded urine result in the individual profile is upper-cased but not stripped
    (HEALTH_SCREEN.py:546-550).
- The development portal stores a raw `ReportFileName` cell as it is (a missing one stays
  missing), because it never strips or stringifies that cell. The model keeps it as a cell.
