# QC Test Report Analyzer — judgement core in Dafny

The analyzer is a Streamlit page. It takes an uploaded QC test table and
rejects it unless the header holds the four Korean column names 항목명
(test item), 측정값 (measured value), 기준하한 (lower limit) and 기준상한
(upper limit). On an accepted table it adds a Result column ("Pass" or
"Fail" against the limits). It adds a Z-score column: `scipy.stats.zscore`
of the measured values, with the population standard deviation. It adds an
Outlier column ("Yes" where |z| > 2, the empty string elsewhere). Finally it
writes a PDF. The PDF holds a title and one line per row, with the item
name translated to English and every line forced into Latin-1.

This project models that pipeline and proves what it promises:

- `schema.dfy` (`Schema`): the column check.
- `stats.dfy` (`Stats`): population mean and variance over `real`, and a
  Chebyshev-style counting bound.
- `judgement.dfy` (`Judgement`): the row verdict, z-scores, the outlier
  mark and the three per-row columns. The columns are filled by loops.
- `report.dfy` (`Report`): the name table, the Latin-1 replacement and the
  report lines.
- `qc_tool.dfy` (`QcTool`): the whole run on one table.

Values are `real`. The outlier test is proved equal to its squared form.
When the variance is positive, |zᵢ| > 2 holds exactly when
(xᵢ − mean)² > 4·variance. So no square root is computed. The caller
supplies the standard deviation `sd`, with `sd ≥ 0` and `sd * sd` equal to
the variance. A zero standard deviation gives `NaN` z-scores, and
`abs(NaN) > 2` is false. Numbers enter the report text through a formatter
parameter `fmt` of type `Formats`. It holds one rendering function per
numeric column and stands for Python's `str` of a cell of that column.

## Model

| member | source | states |
|---|---|---|
| Schema.AllPresent | qc_tool_v1.py:52 | the short-circuiting `all(col in columns ...)` is true iff every expected name occurs among the columns |
| Schema.HasExpectedColumns | qc_tool_v1.py:51-52 | a header is accepted iff each of 항목명, 측정값, 기준하한 and 기준상한 occurs in it |
| Schema.SupersetAccepted | qc_tool_v1.py:51-52 | any header containing every column of an accepted header is accepted, whatever its order, repetitions or extra columns |
| Schema.ExtraColumnsAccepted | qc_tool_v1.py:51-52 | appending or prepending extra columns never causes rejection |
| Schema.MissingColumnRejected | qc_tool_v1.py:51-54 | missing any one of the four required names rejects the table |
| Schema.ExactHeaderAccepted | qc_tool_v1.py:51-52 | the four names alone are accepted, in their own order or reversed |
| Judgement.AssessRow | qc_tool_v1.py:59-62 | a row passes iff lower ≤ value ≤ upper (a closed interval); with lower > upper it fails |
| Judgement.VerdictText | qc_tool_v1.py:61-62 | the Result text is "Pass" exactly for a pass and "Fail" exactly for a fail |
| Judgement.LimitsPass | qc_tool_v1.py:60-62 | with ordered limits, a value equal to either limit passes |
| Judgement.InvertedLimitsAlwaysFail | qc_tool_v1.py:60-61 | with lower > upper every value fails |
| Judgement.VerdictIgnoresItemName | qc_tool_v1.py:59-62 | the verdict does not depend on the item name |
| Judgement.ResultColumn | qc_tool_v1.py:64 | the Result column has one entry per row, in row order, each the verdict of its own row |
| Judgement.Values | qc_tool_v1.py:65 | the measured-value column has one entry per row, in row order |
| Judgement.ZScoreOf | qc_tool_v1.py:65 | the z-score is NaN exactly when the standard deviation is zero, and otherwise z·sd = x − mean |
| Judgement.ZScoreColumn | qc_tool_v1.py:65 | the Z-score column has one entry per value, in order, each that value's z-score against the batch mean |
| Judgement.Flagged | qc_tool_v1.py:66 | the lambda's `abs(z) > 2`: true iff the z-score is finite and above 2 or below −2, and never for NaN |
| Judgement.OutlierText | qc_tool_v1.py:66 | the Outlier text is "Yes" exactly for a flagged row and "" otherwise |
| Judgement.OutlierColumn | qc_tool_v1.py:66 | the Outlier column has one mark per z-score, in order: "Yes" iff the z-score is finite with abs(z) > 2 |
| Judgement.ZScoreSquared | qc_tool_v1.py:66 | for sd > 0, abs(d/sd) > 2 iff d² > 4·sd², so abs(z) = 2 exactly is not flagged |
| Judgement.ZScoreFlagSquared | qc_tool_v1.py:65-66 | the z-score flag equals the squared test (positive variance and squared deviation above 4·variance), for every sd whose square is the variance |
| Judgement.OutlierIsZScoreFlag | qc_tool_v1.py:65-66 | row i is marked iff (xᵢ − mean)² > 4·(Σ(xⱼ − mean)²/n) with positive variance |
| Judgement.ConstantBatchNoOutliers | qc_tool_v1.py:65-66 | when all values are equal no row is an outlier |
| Judgement.SingleValueNoOutlier | qc_tool_v1.py:65-66 | a batch of one value has no outlier |
| Judgement.BoundaryNotFlagged | qc_tool_v1.py:65-66 | in 10, 10, 10, 10, 40 the 40 has z = 2 exactly (mean 16, variance 144) and is not marked |
| Judgement.AboveBoundaryFlagged | qc_tool_v1.py:65-66 | in 10, 10, 10, 10, 10, 40 (mean 15, variance 125) the 40 is marked and a 10 is not |
| Judgement.CountYesMatches | qc_tool_v1.py:66 | the number of "Yes" marks is the number of values whose squared deviation exceeds the threshold |
| Judgement.FewerThanAQuarterMarked | qc_tool_v1.py:65-66 | fewer than a quarter of a non-empty batch is marked; a batch of at most four rows has no mark |
| Stats.Mean | qc_tool_v1.py:65 | the population mean that `zscore` centres on: n copies of it add up to the sum of a non-empty batch |
| Stats.PopVariance | qc_tool_v1.py:65 | the ddof = 0 variance inside `zscore`: non-negative, and n copies of it add up to the sum of squared deviations from the mean (divide by n, not n − 1) |
| Stats.ConstantBatch | qc_tool_v1.py:65 | a non-empty batch of equal values has that value as mean and zero population variance |
| Stats.SumSqDevBoundsCount | qc_tool_v1.py:65-66 | the sum of squared deviations is at least t times the number of squared deviations above t, and strictly more once one is counted |
| Stats.ChebyshevQuarter | qc_tool_v1.py:65-66 | fewer than a quarter of the values have a squared deviation above four times the variance |
| Report.Translate | qc_tool_v1.py:107 | `rename_map.get(name, name)`: the mapped English name for a key, the name itself otherwise |
| Report.RenameMapEntries | qc_tool_v1.py:83-96 | the twelve keys translate to Temperature, Color, Turbidity, pH, Moisture, Viscosity, Specific Gravity and Item 1 to Item 5 |
| Report.Latin1Char | qc_tool_v1.py:109 | a character up to U+00FF is kept, any other becomes '?' |
| Report.Latin1Replace | qc_tool_v1.py:109 | the replacement keeps the length and maps each character on its own |
| Report.Latin1ReplaceIsLatin1 | qc_tool_v1.py:109 | every output character is at most U+00FF |
| Report.Latin1ReplaceKeepsLatin1 | qc_tool_v1.py:109 | a string already in Latin-1 is unchanged |
| Report.Latin1ReplaceChangesIff | qc_tool_v1.py:109 | a string is unchanged iff it is already in Latin-1 |
| Report.Latin1ReplaceIdempotent | qc_tool_v1.py:109 | replacing twice is replacing once |
| Report.Latin1ReplaceConcat | qc_tool_v1.py:109 | the replacement distributes over concatenation |
| Report.MappedNamesAreLatin1 | qc_tool_v1.py:107-109 | every translated name in the table survives the replacement unchanged |
| Report.UnmappedNameBecomesQuestionMarks | qc_tool_v1.py:107-109 | an unmapped name written wholly outside Latin-1 (an untranslated Korean name) prints as one '?' per character |
| Report.RawLine | qc_tool_v1.py:108 | the f-string is as long as the translated name, the text up to the lower limit, one separator character and the rest together |
| Report.RawLineLayout | qc_tool_v1.py:108 | the f-string starts with the translated name, the one character between the two limits is the en dash U+2013, and after it come the upper limit, Result and Outlier |
| Report.ReportLine | qc_tool_v1.py:108-109 | a report line is Latin-1 and as long as the f-string it was made from |
| Report.ReportLineShape | qc_tool_v1.py:108-109 | when the numbers and the mark are Latin-1 text, the line is the replaced name followed by the f-string unchanged, except that the en dash between the limits becomes '?' |
| Report.ReportLines | qc_tool_v1.py:103-110 | the PDF text cells are the title followed by one line per row, in row order |
| QcTool.Analyze | qc_tool_v1.py:51-110 | a table is rejected, with the column error message, iff its header fails the check. Otherwise the Result, Z-score and Outlier columns and the report lines are as above, and fewer than a quarter of the rows are marked |

## Left out

- The Streamlit page is left out: the page set-up, title, markdown, file uploader, success and error boxes, table display and download buttons. It is user interface. A rejected table is modelled as the `Rejected` outcome carrying the error text; `st.stop()` is not modelled.
- Reading CSV or Excel through pandas, including the UTF-8-sig to UTF-8 fallback, is left out. It is I/O in a foreign library. The model starts from a header (`seq<string>`) and rows of typed values.
- The sample-file existence check and its download are left out. They are filesystem I/O.
- The matplotlib bar chart is left out. It only presents data.
- The FPDF page is left out: page, font, cell geometry, the title cell's centring, the PDF bytes and the `BytesIO` buffer. It is an external renderer. Only the text of each cell is modelled.
- Floating point and `sqrt` are not modelled. Values are exact reals. The standard deviation is a parameter `sd` whose square must be the population variance. So the Z-score column is computed from a caller-supplied root, and rounding that could make a constant column's z-scores non-NaN is not modelled.
- NaN or missing cells and values that are not numbers are not modelled. A NaN measured value would make Python's `assess_row` comparisons false, yielding "Pass".
- Python's `str` of a number is the parameter `fmt`, with one function per numeric column, so a float column printing `10.0` and an integer column printing `10` can both be expressed. What each function outputs is not modelled.
- The data frame mutated in place by adding columns is modelled as columns returned by the methods `ResultColumn`, `ZScoreColumn` and `OutlierColumn`.
- The converse of `Judgement.ConstantBatchNoOutliers`, that zero variance means all values are equal, is not proved. It is not needed for the outlier mark, which only uses the fact that zero variance gives NaN.
- Nothing here models aggregate pass/fail counts, narrative summary sentences, English column-name aliases, or refusal of an empty batch. The program has none of these.
