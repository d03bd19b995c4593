# simple_grav_proc: vertical-gradient processing, modelled in Dafny

This project models the computational core of `simple_grav_proc`, a tool that
processes relative gravity readings (CG-6 style exports) taken at several
instrument heights above a point in order to estimate the vertical gravity
gradient (VG).

The model has two stages, as `get_vg` and `get_vg_by_meter` do:

* **Tie stage.** Readings are grouped by (meter, survey) and then by line.
  Each line is fitted by a robust regression. The design has one 0/1
  indicator column per station other than the line's first station, followed
  by a drift polynomial in time. A line's *ties* pair its other stations
  (in order of first appearance) by position with its other distinct
  heights, so it yields min(#other stations, #other distinct heights)
  ties; when every station is observed at a single height of its own that
  is one tie per other station. A tie holds the gravity of its station
  relative to the first station.
* **Gradient stage.** Ties are grouped by survey (`get_vg`) or by
  (meter, survey) (`get_vg_by_meter`). Each group is fitted as a polynomial
  in height with no constant term, plus one offset column per distinct
  `'{line}_{meter}'` label in `get_vg` and per distinct line in
  `get_vg_by_meter`. Each tie gives
  two observations: the reference height at gravity 0, and the tied height
  at the tie's gravity. The result is one table row per group, holding the
  coefficients `a, b, …` (lowest power first), their standard errors,
  `covab` and the residuals.

On top of that it models the arithmetic and the loops of the plotting
helpers:

* the height-corrected gradient curve and its uncertainty band;
* how residual pairs are matched to ties in `vg_plot`;
* the map extent and tile zoom of `get_map`;
* the in-place residual update of `get_residuals_plot`;
* the meter numbering of `residuals_plot`.

The regression (`statsmodels` RLM) is not modelled. It is a parameter of
type `Design.Solver`: any function from a design matrix and observations to
parameters, standard errors, a covariance matrix and residuals of the
matching shapes. Every property below therefore holds whatever numbers the
fit returns.

Modules:

* `Tables`: the pandas behaviour the pipeline relies on. `unique()` keeps
  first-appearance order. `groupby` visits keys in sorted order and keeps
  each group's rows in their original order. Boolean-mask selection.
  Lexicographic string order.
* `Design`: matrix construction. `np.vander`, dropping the last column,
  horizontal concatenation, one-hot (dummy) blocks, `np.repeat(…, 2,
  axis=0)`, and the solver's shape contract.
* `Ties`: the tie stage (`vertical_gradient.py` lines 28-98 and their copy
  at 161-221).
* `Gradient`: the gradient stage, the two result tables, and the entry
  points `GetVg` and `GetVgByMeter`.
* `Plots`: the `plots.py` helpers listed above.

Loops that build values step by step are modelled as methods with loop
invariants, each proved equal to a specification function:

* `Ties.TieStage`, `Ties.FitLines`, `Ties.BuildStationBlock` and
  `Ties.EmitTies`;
* `Gradient.GradientStage` and `Gradient.GradientStageByMeter`;
* `Plots.UpdateResiduals` (it updates an `array<real>` in place) and
  `Plots.MeterNumbers`.

The properties are then proved about those specification functions.

## Model

| member | source | states |
|---|---|---|
| Tables.Unique | grav_proc/vertical_gradient.py:40-41 | the unique list has no duplicates, holds exactly the values of the column, is no longer than it, and starts with the column's first value |
| Tables.UniqueInFirstAppearanceOrder | grav_proc/vertical_gradient.py:40-41 | the unique values are listed in the order of their first occurrence |
| Tables.UniqueInStep | grav_proc/vertical_gradient.py:40-41 | two columns whose rows agree on equality have unique lists of equal length, and entry k of both lists comes from the same row |
| Tables.GroupBy | grav_proc/vertical_gradient.py:29-34 | groups come in strictly increasing key order, one per key present and only those, each is nonempty and holds exactly the rows with its key in their original order |
| Tables.SelectConcat | grav_proc/plots.py:27 | selecting rows by key distributes over concatenation |
| Tables.SelectOfSelect | grav_proc/plots.py:27-31 | selecting twice by the same key gives the inner selection when the keys agree and nothing otherwise |
| Tables.StrLessIsStrictTotalOrder | grav_proc/vertical_gradient.py:103 | the lexicographic order that sorts survey names is irreflexive, transitive and total |
| Design.PowersAt | grav_proc/vertical_gradient.py:37 | column j of a Vandermonde row is the power n-1-j; each entry is x times its right neighbour and the last entry is 1 |
| Design.Vander | grav_proc/vertical_gradient.py:37 | a well-formed matrix of width n with one row per sample (the row contents are `Design.PowersAt`) |
| Design.DropLastColumn | grav_proc/vertical_gradient.py:113 | one column fewer, every kept entry unchanged |
| Design.HConcat | grav_proc/vertical_gradient.py:63 | a well-formed matrix as tall as both blocks whose width is the sum of theirs (the entries are `Design.HConcatAt`) |
| Design.HConcatAt | grav_proc/vertical_gradient.py:116 | left-block entries keep their column; right-block entries are shifted by the left width |
| Design.OneHot | grav_proc/vertical_gradient.py:54-62 | a well-formed matrix with one row per value and one column per listed column (the row contents are `Design.OneHotRowShape`) |
| Design.OneHotRowShape | grav_proc/vertical_gradient.py:54-62 | each entry is 1 exactly where the value equals the column; with distinct columns at most one entry is 1; a value outside the columns gives a zero row, a value among them gives a 1 |
| Design.RepeatRowsTwice | grav_proc/vertical_gradient.py:115 | same width, twice the height |
| Design.RepeatRowsTwiceAt | grav_proc/vertical_gradient.py:115 | rows 2i and 2i+1 of the repeated block are both row i |
| Ties.PairLessIsStrictTotalOrder | grav_proc/vertical_gradient.py:29 | the (meter, survey) key order is a strict total order |
| Ties.SurveyGroups | grav_proc/vertical_gradient.py:29-30 | every (meter, survey) group is nonempty |
| Ties.LineGroups | grav_proc/vertical_gradient.py:33-34 | every line group is nonempty |
| Ties.SelectReference | grav_proc/vertical_gradient.py:40-45 | the reference station and height are those of the line's first reading; the change lists are the unique lists without their first entry |
| Ties.ReferenceExcluded | grav_proc/vertical_gradient.py:40-45 | the change stations (and heights) are distinct and are exactly the line's other stations (heights), never the reference |
| Ties.BuildStationBlock | grav_proc/vertical_gradient.py:54-62 | the nested loops build the one-hot block of the line's stations over the change stations |
| Ties.StationBlockShape | grav_proc/vertical_gradient.py:54-62 | a reading on the reference station has an all-zero row; any other reading has exactly one 1, in its own station's column |
| Ties.DriftBlock | grav_proc/vertical_gradient.py:36-37 | one row per reading, max_degree+1 columns |
| Ties.LineDesign | grav_proc/vertical_gradient.py:63 | one row per reading; width is the number of change stations plus max_degree+1 |
| Ties.LineDesignRow | grav_proc/vertical_gradient.py:54-63 | a design row is the station indicators, then the time powers from max_degree down to the constant 1 |
| Ties.SliceParams | grav_proc/vertical_gradient.py:71-76 | the drift slice has max_degree entries; the gravity slice has the rest before the last max_degree+1 |
| Ties.SliceParamsPartition | grav_proc/vertical_gradient.py:71-76 | gravity, drift and constant put back together give the parameter vector, nothing lost or repeated |
| Ties.ZipTies | grav_proc/vertical_gradient.py:79-80 | a line yields min(#change stations, #change heights) ties |
| Ties.ZipTiesTargets | grav_proc/vertical_gradient.py:80-85 | the zipped ties go to distinct change stations |
| Ties.LineFit | grav_proc/vertical_gradient.py:67-68 | the fit has the shape of the line's design |
| Ties.LineTieCount | grav_proc/vertical_gradient.py:79-80 | `Ties.LineTies`: a line yields min(#stations - 1, #distinct heights - 1) ties |
| Ties.LineTieAt | grav_proc/vertical_gradient.py:80-96 | `Ties.LineTies`, tie i: its from point and height are the first reading's, its to point and height are the (i+1)-th unique station and height, gravity and error are parameter i, drift and constant are the shared slices, and the provenance comes from the first reading |
| Ties.LineTieTargets | grav_proc/vertical_gradient.py:80-85 | a line's ties go to distinct stations observed on the line, none of them the reference |
| Ties.UniqueHeightsFollowStations | grav_proc/vertical_gradient.py:40-41 | with one height per station, the unique heights line up with the unique stations |
| Ties.OwnHeightTieCount | grav_proc/vertical_gradient.py:79-80 | with one height per station, a line yields one tie per other station |
| Ties.OwnHeightTies | grav_proc/vertical_gradient.py:80-87 | with one height per station, each tie's to height is a height its to station was observed at |
| Ties.EmitTies | grav_proc/vertical_gradient.py:79-96 | the append loop yields exactly the zipped ties |
| Ties.FitLine | grav_proc/vertical_gradient.py:34-96 | one line's body yields exactly the line's ties |
| Ties.FitLines | grav_proc/vertical_gradient.py:33-96 | the loop over lines yields the concatenation of every line's ties in line order |
| Ties.TieStage | grav_proc/vertical_gradient.py:28-98 | the nested loops yield `Ties.TieTable`: groups in sorted (meter, survey) order, lines in sorted order |
| Gradient.NatToString | grav_proc/vertical_gradient.py:114 | the decimal form of a number is nonempty and all digits |
| Gradient.ParseNatToString | grav_proc/vertical_gradient.py:114 | reading the digits back gives the number |
| Gradient.IntToStringRoundTrip | grav_proc/vertical_gradient.py:114 | `int(str(i)) == i` for every integer |
| Gradient.LineMeterLabelInjective | grav_proc/vertical_gradient.py:114-115 | two ties with the same '{line}_{meter}' label have the same line and meter |
| Gradient.Interleave | grav_proc/vertical_gradient.py:105-110 | stacking two columns and flattening puts a[k] at 2k and b[k] at 2k+1 |
| Gradient.HeightsAt | grav_proc/vertical_gradient.py:105-107 | `Gradient.Heights`: row 2k holds tie k's reference height in metres, row 2k+1 its tied height |
| Gradient.ResponseAt | grav_proc/vertical_gradient.py:108-110 | `Gradient.Response`: row 2k observes 0, row 2k+1 observes tie k's gravity |
| Gradient.CoefDesignAt | grav_proc/vertical_gradient.py:113 | `Gradient.CoefDesign`: column j of the coefficient design holds the height to the power vg-j; there is no constant column |
| Gradient.DummyDesign | grav_proc/vertical_gradient.py:115 | one column per distinct label, two rows per tie |
| Gradient.GradientDesign | grav_proc/vertical_gradient.py:116 | width vg plus the number of distinct labels; height twice the number of ties |
| Gradient.GradientDesignPowers | grav_proc/vertical_gradient.py:113-116 | the first vg columns of every design row are the powers of that row's height |
| Gradient.GradientDesignDummies | grav_proc/vertical_gradient.py:114-116 | both rows of a tie carry the same dummy: 1 exactly in its label's column |
| Gradient.GradientDesignDummyRows | grav_proc/vertical_gradient.py:114-116 | after the power columns, both rows of tie k are exactly the one-hot row of the tie's label over the sorted distinct labels |
| Gradient.GradientDesignDummyOnce | grav_proc/vertical_gradient.py:114-116 | the dummy part of each of a tie's two rows has exactly one 1, in the column of the tie's own label |
| Gradient.Reverse | grav_proc/vertical_gradient.py:123-124 | `[::-1]`: entry i is entry n-1-i |
| Gradient.ExtractGradient | grav_proc/vertical_gradient.py:123-125 | extraction fails exactly when covariance entry [0][1] does not exist; otherwise coefs[i] and std_coefs[i] are the parameter and standard error of the power column for height^(i+1) (the first vg entries reversed), covab is entry [0][1] and the residuals are the fit's |
| Gradient.GroupFit | grav_proc/vertical_gradient.py:119-120 | the fit has the shape of the group's design |
| Gradient.GroupGradientFails | grav_proc/vertical_gradient.py:113-125 | `Gradient.GroupGradient`: a group fails exactly when its design has fewer than two columns; for a nonempty group, exactly when vg = 0 and it has one line |
| Gradient.GroupGradientAt | grav_proc/vertical_gradient.py:123-132 | `Gradient.GroupGradient`: coefs[i] and std_coefs[i] are the parameter and error of the power-(i+1) column, covab is covariance entry [0][1], and there are two residuals per tie |
| Gradient.CoefNames | grav_proc/vertical_gradient.py:126-127 | n one-letter names of consecutive letters from 'a' (coefficient i is `chr(97 + i)`), strictly increasing and hence distinct |
| Gradient.StdCoefNames | grav_proc/vertical_gradient.py:128 | n two-letter names, each 'u' followed by the matching coefficient name; distinct, and none is a coefficient name |
| Gradient.VgColumnsDistinct | grav_proc/vertical_gradient.py:126-131 | the table has 2vg+3 columns (one more per meter), all distinct; 'survey' comes after 'meter' (when present) and the coefficient names `CoefNames(vg)` follow it, the first two being 'a' and 'b' when vg ≥ 2 |
| Gradient.TieSurveyGroups | grav_proc/vertical_gradient.py:103 | every survey group is nonempty |
| Gradient.SurveyRow | grav_proc/vertical_gradient.py:104-133 | a survey's row is absent exactly when vg plus its line count is below 2; otherwise it names the survey and has vg coefficients and two residuals per tie |
| Gradient.CollectAt | grav_proc/vertical_gradient.py:133 | collecting rows succeeds exactly when every group does, and keeps every row in order |
| Gradient.VgTableRows | grav_proc/vertical_gradient.py:103-133 | `Gradient.VgTable`: one row per survey group, naming that survey, with vg coefficients and two residuals per tie; surveys increase down the table |
| Gradient.VgTableFails | grav_proc/vertical_gradient.py:113-125 | `Gradient.VgTable`: `get_vg` fails exactly when vg = 0 and some survey has a single (line, meter) pair |
| Gradient.GradientStage | grav_proc/vertical_gradient.py:100-133 | the loop over survey groups returns the gradient table, or stops at the first failing group |
| Gradient.MeterRow | grav_proc/vertical_gradient.py:226-250 | a (meter, survey) row is absent exactly when vg plus its line count is below 2; otherwise it names meter and survey |
| Gradient.VgTableByMeterRows | grav_proc/vertical_gradient.py:225-250 | `Gradient.VgTableByMeter`: one row per (meter, survey) group, keys increasing down the table, vg coefficients and two residuals per tie |
| Gradient.VgTableByMeterFails | grav_proc/vertical_gradient.py:234-243 | `Gradient.VgTableByMeter`: `get_vg_by_meter` fails exactly when vg = 0 and some group has a single line |
| Gradient.GradientStageByMeter | grav_proc/vertical_gradient.py:223-250 | the loop over (meter, survey) groups returns the per-meter table, or stops at the first failing group |
| Gradient.GetVg | grav_proc/vertical_gradient.py:6-135 | `get_vg` fails exactly when the gradient table does; otherwise it returns the tie table and the gradient table of those ties |
| Gradient.GetVgByMeter | grav_proc/vertical_gradient.py:139-252 | the same for `get_vg_by_meter` with the per-meter table |
| Plots.HeightCorrection | grav_proc/plots.py:185-193 | the corrected curve is b·y·(y − h_ref); it is independent of a and vanishes at 0 and at h_ref |
| Plots.UncertaintySqAsWritten | grav_proc/plots.py:196-198 | the squared band as written vanishes at the reference height |
| Plots.UncertaintySq | grav_proc/plots.py:196-198 | the corrected squared band equals the variance of p(y) − p(h_ref) for coefficient errors ua, ub and covariance cov |
| Plots.UncertaintySqSwapped | grav_proc/plots.py:198 | the band as written is the corrected band with ua and ub exchanged |
| Plots.UncertaintySqCounterexample | grav_proc/plots.py:198 | at y = 0.5 with ua = 1, ub = 0, cov = 0 the band as written gives 0.5625 against a variance of 0.25 |
| Plots.ResidPairsFlatten | grav_proc/plots.py:186 | reshaping into pairs is undone by interleaving them again: the pairs flatten back to the residual column, as the design interleaved the reference and tied rows |
| Plots.PlotSegmentsAt | grav_proc/plots.py:186-208 | with two residuals per selected tie, the plot draws every selected tie at its own residuals |
| Plots.VgPlotPairing | grav_proc/plots.py:180-208 | for each `get_vg` row (vg ≥ 2), the ties the plot selects are exactly the ties the row was fitted on, in order; none is dropped and each gets its own residual pair |
| Plots.VgPlotPairingByMeter | grav_proc/plots.py:178-208 | the same for `get_vg_by_meter` rows, selected by meter and survey |
| Plots.MapExtentTall | grav_proc/plots.py:103-114 | `Plots.MapExtent`: a tall box is padded by a tenth of its height, widened to 16:9 about its centre longitude |
| Plots.MapExtentWide | grav_proc/plots.py:115-121 | `Plots.MapExtent`: a wide box is padded by a tenth of its width, heightened to 9:16 about its centre latitude |
| Plots.MapExtentContains | grav_proc/plots.py:103-121 | `Plots.MapExtent`: the window contains every station in either branch |
| Plots.ZoomAsWrittenGaps | grav_proc/plots.py:129-138 | `Plots.ZoomAsWritten`: widths exactly 0.2, 0.3 and 0.7 get zoom 8, and a wider window can get a finer zoom |
| Plots.Zoom | grav_proc/plots.py:129-138 | the gap-free zoom lies in 8..13 and agrees with the code everywhere except at 0.2, 0.3 and 0.7 |
| Plots.ZoomMonotone | grav_proc/plots.py:129-138 | a wider window never gets a finer zoom |
| Plots.MapZoom | grav_proc/plots.py:103-138 | the zoom `get_map` requests, from the padded window width through the chain as written, is one of 8, 10, 11, 12, 13 |
| Plots.MapZoomGap | grav_proc/plots.py:114-138 | in exact (real) arithmetic, a station box 0.25 degrees wide (window exactly 0.3) gets zoom 8 while a wider 0.3-degree box gets 11; in IEEE doubles the padded width of the first box rounds slightly above 0.3 |
| Plots.MapZoomCorrected | grav_proc/plots.py:103-138 | with gap-free bands the map zoom lies in 8..13 and equals `MapZoom` unless the window width is 0.2, 0.3 or 0.7 |
| Plots.MapZoomCorrectedMonotone | grav_proc/plots.py:114-138 | with gap-free bands, of two wide station boxes the wider never gets the finer map |
| Plots.FirstReading | grav_proc/plots.py:32 | absent exactly when the meter's line has no reading; otherwise the corrected gravity of its first reading |
| Plots.ApplyTiesOk | grav_proc/plots.py:30-32 | `Plots.ApplyTies`: the update loop completes exactly when every tie's line has a reading |
| Plots.ApplyTiesUntouched | grav_proc/plots.py:31-45 | `Plots.ApplyTies`: a reading whose meter and line no tie touches keeps its residual, even when the loop stops early |
| Plots.ApplyTiesLastWriter | grav_proc/plots.py:30-45 | `Plots.ApplyTies`: when the loop completes, a touched reading holds corr_grav − first reading − (the tie, if it is on the tied station) of the last tie of its meter and line |
| Plots.ProcessingOrderMembers | grav_proc/plots.py:21-30 | every tie is processed, and nothing else |
| Plots.ProcessingOrderPerMeter | grav_proc/plots.py:21-30 | restricted to one meter, the processing order is the tie table's order |
| Plots.FailurePersists | grav_proc/plots.py:32 | once a tie raises, the ties after it change nothing |
| Plots.ApplyTieInPlace | grav_proc/plots.py:36-45 | one tie's pass (`Plots.ApplyTie`) overwrites exactly the readings of its meter and line |
| Plots.ApplyBlock | grav_proc/plots.py:30-45 | one meter's ties, applied in table order, continue the specified outcome |
| Plots.UpdateResiduals | grav_proc/plots.py:17-45 | the loops leave the residual column, and report completion, exactly as `Plots.ApplyTies` does over the ties in processing order |
| Plots.MeterNumbers | grav_proc/plots.py:233-238 | each distinct meter gets its position in first-appearance order: a bijection onto 0..n-1 whose keys are exactly the meters |

## Left out

- The robust regression (`sm.RLM(...).fit()`) is not modelled. It is the opaque `Design.Solver`, constrained only by the shapes of its results. Its weights, convergence and numerical failures are not modelled.
- Floating point is not modelled. All arithmetic uses exact reals, so the model ignores rounding in `* 1e-3`, in the Vandermonde powers and in the map and band formulas. `* 1e-3` is written `/ 1000.0`.
- Converting `date_time` to days (`timestamp() / 86400`) is left out. Each reading carries its time in days as a real.
- `np.linspace` sampling, `np.sqrt`, and all rendering are left out: matplotlib figures, titles, axis limits, map tiles, annotations and the residual scatter plots. The band is modelled as its square.
- `get_map` averages station coordinates with a `groupby` mean and takes their min and max. That is left out; the bounding box is an input.
- `get_residuals_plot` draws its figure after the update loop; that part is left out. The adjusted tie table it reads comes from code that is not part of this model, so its ties are plain inputs (`StationTie`).
- `raw.loc[index]` with duplicate index labels would write several rows; the model addresses rows by position.
- `residuals_plot` is modelled only up to the meter numbering; the figure layout is left out.
- Line and meter numbers are integers, as in CG-6 exports. Survey and station names are strings compared lexicographically by code point, as pandas sorts them.
- Gradient.CoefName: requires 97 + i < 0xD800, because Dafny characters exclude surrogate code points. Python's `chr` has no such gap.
- Gradient.GroupGradientAt: `covab` is covariance entry [0][1] of the design's column order (powers from `vg_max_degree` down to 1, then the offsets), not the covariance of a and b in general. For `vg_max_degree` ≥ 2 it pairs the two highest powers (b and a when it is 2); for 1, the linear coefficient and the first offset; for 0, the first two offsets. The model follows the code.
- No singular-design error is modelled, because the code raises none of its own. The only failure in the gradient stage is the `IndexError` of entry [0][1] on a one-column design, and it ends the whole call.
- The GUI, the report writers, the scripts and `main.py` are not part of this model.

## Findings

| source | as written | input that shows it | evidently intended | confidence | as-written member | corrected member |
|---|---|---|---|---|---|---|
| grav_proc/plots.py:129-138 | each zoom band is an open interval, so a width of exactly 0.2, 0.3 or 0.7 falls through to zoom 8 | dx = 0.3 gives zoom 8 while dx = 0.35 gives 11 | contiguous bands: 13 below 0.2, 12 below 0.3, 11 below 0.7, 10 below 1, else 8, never finer for a wider window | high for the gap; low impact (exact boundary values only); not executed | Plots.ZoomAsWrittenGaps | Plots.ZoomMonotone |
| grav_proc/plots.py:198 | the band weights ub² by 1 and ua² by (y + h_ref)², although a is the linear and b the quadratic coefficient | y = 0.5, ua = 1, ub = 0, cov = 0 gives 0.5625 where the variance of p(y) − p(h_ref) is 0.25 | (h_ref − y)² (ua² + (y + h_ref)² ub² + 2 (y + h_ref) cov), the variance of p(y) − p(h_ref) | medium (the intended quantity is inferred from the formula's shape; note the plotted curve gp(y) = b·y(y − h_ref) alone has variance y²(y − h_ref)² ub², with no ua term, so `Plots.UncertaintySq` is the band of p(y) − p(h_ref), not of the plotted curve); not executed | Plots.UncertaintySqCounterexample | Plots.UncertaintySq |
