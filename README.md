# Inflammation study core, modelled in Dafny

This project models the core of the inflammation analysis package,
`inflammation/models.py`. The package holds daily inflammation readings of patients
in tables: one row per patient, one column per study day. It provides:

- the per-day statistics of one table: mean, maximum and minimum over patients;
- the cross-dataset analysis. The daily means of every table a data source loads are
  stacked into a matrix, and the spread of every day's column across the tables is
  computed;
- the data sources. A CSV or JSON source lists the files named `inflammation*.csv` or
  `inflammation*.json` in one directory. It fails when nothing matches, and otherwise
  loads one table per matched file, in the order the files were listed;
- the people of the study. A patient has a list of dated observations that only
  grows. A doctor has a list of patients, and a second patient with a name already
  on the list is refused.

Modules:

- `Results`: optional values, the errors the core raises, a result type, and `MapAll`.
  `MapAll` is Python's `list(map(f, xs))`: the first element whose call fails stops it.
- `Statistics`: sum, mean, maximum, minimum and population variance of one sequence of
  readings. Population variance divides by the count, as numpy's `std` does by default.
- `Tables`: a table, its well-formedness (`Rectangular`: at least one row, all rows
  equally long) and its columns.
- `DailyStatistics`: `daily_mean`, `daily_max`, `daily_min`, a checked version that
  refuses malformed tables, and the cases of the statistics tests.
- `DataSources`: the file name pattern, the directory match, `load_json`'s record
  rows, and `load_inflammation_data` for both kinds of source.
- `CrossDataset`: `np.stack`, the per-day variance,
  `compute_standard_deviation_by_day` (up to the square root) and `analyse_data`.
- `People`: `Observation`, and the classes `Patient` and `Doctor`. Their methods update
  the object's list field in place. Each method's new state is tied to a function on
  values (`Recorded`, `Admitted`), and the lemmas about repeated use are proved about
  those functions.

Exceptions become `Result` errors:

- `ValueError` when a data source matches no file;
- `KeyError` when a JSON record has no `observations`;
- numpy's refusal of a ragged table, or of stacking daily means of different lengths.

`last_observation` on a patient without observations raises `IndexError`; the model
returns `None` instead.

Both data sources raise the same message when nothing matches,
"No inflammation data CSV files found in path ...". The JSON source says "CSV" too,
and the model keeps that message as written (`DataSources.NoDataMessage`).

## Model

| member | source | states |
|---|---|---|
| Results.MapAll | inflammation/models.py:72-74 | succeeds exactly when every call succeeds, with one result per element in order; otherwise fails with the error of a failing element, and every element before that one succeeded |
| Statistics.Mean | inflammation/models.py:114 | the mean, taken once per reading, gives the sum of the readings |
| Statistics.Max | inflammation/models.py:117-124 | the maximum is at least every reading and equals one of them |
| Statistics.Min | inflammation/models.py:127-134 | the minimum is at most every reading and equals one of them |
| Statistics.Variance | inflammation/models.py:143 | the population variance is never negative |
| Statistics.MeanBetweenMinAndMax | inflammation/models.py:107-134 | the mean lies between the minimum and the maximum |
| Statistics.MeanOfConstant | inflammation/models.py:107-114 | readings that all equal `c` have mean `c` |
| Statistics.DeviationsFromMeanCancel | inflammation/models.py:107-114 | the deviations of the readings from their mean sum to zero |
| Statistics.VarianceZeroIffConstant | inflammation/models.py:143 | the variance is zero if and only if all readings are equal |
| Tables.Column | inflammation/models.py:5-7 | a day's column has one reading per patient: patient `i`'s reading on that day |
| DailyStatistics.DailyMean | inflammation/models.py:107-114 | one mean per day of the table |
| DailyStatistics.DailyMax | inflammation/models.py:117-124 | one value per day, at least every patient's reading that day and equal to one of them |
| DailyStatistics.DailyMin | inflammation/models.py:127-134 | one value per day, at most every patient's reading that day and equal to one of them |
| DailyStatistics.DailyStatistic | inflammation/models.py:107-134 | a reduction succeeds exactly on a well-formed table, and its value is then the requested one of `DailyMean`, `DailyMax` and `DailyMin` (one value per day); a table without rows fails with `EmptyTable`, a ragged one with `RaggedTable` |
| DailyStatistics.DailyMaxUnique | inflammation/models.py:117-124 | any per-day sequence with the two properties of the daily maximum is the daily maximum |
| DailyStatistics.DailyMinUnique | inflammation/models.py:127-134 | any per-day sequence with the two properties of the daily minimum is the daily minimum |
| DailyStatistics.DailyMeanWithinRange | inflammation/models.py:107-134 | on every day, daily minimum <= daily mean <= daily maximum |
| DailyStatistics.DailyMeanOfUniformDay | inflammation/models.py:107-114 | a day on which every patient reads `c` has mean `c` |
| DailyStatistics.DailyMeanBalances | inflammation/models.py:107-114 | on every day, the patients' deviations from the daily mean sum to zero |
| DailyStatistics.DailyMeanExamples | tests/test_models.py:8-17 | an all-zero table has daily means [0, 0]; [[1,2],[3,4],[5,6]] has daily means [3, 4] |
| DailyStatistics.DailyMaxExamples | tests/test_models.py:20-30 | an all-zero table has daily maxima [0, 0]; [[1,2],[5,4],[3,6]] has daily maxima [5, 6] |
| DailyStatistics.DailyMinExamples | tests/test_models.py:34-44 | an all-zero table has daily minima [0, 0]; [[1,4],[3,6],[5,2]] has daily minima [1, 2] |
| DataSources.MatchesPatternOfParts | inflammation/models.py:69 | every name made of the prefix, any middle part and the suffix matches `<prefix>*<suffix>` |
| DataSources.MatchesPatternSplits | inflammation/models.py:69 | every name matching `<prefix>*<suffix>` is the prefix, a middle part and the suffix |
| DataSources.JoinPath | inflammation/models.py:69 | the joined path starts with the directory and ends with the file name, with at most one character between them |
| DataSources.JoinPathSeparator | inflammation/models.py:69 | the character between directory and name is `/`, and it is added exactly when the directory is nonempty and does not already end with `/` |
| DataSources.Glob | inflammation/models.py:69 | no more paths than directory entries; a path is produced exactly when it joins the directory to an entry matching `<prefix>*<suffix>` |
| DataSources.GlobOfOneEntry | inflammation/models.py:69 | a single entry gives its joined path when it matches the pattern, and nothing otherwise |
| DataSources.GlobAppend | inflammation/models.py:69 | the matches of a listing are the matches of its first part followed by those of the rest; with `GlobOfOneEntry` this gives one path per matching entry, in listing order |
| DataSources.GlobKeepsListingOrder | inflammation/models.py:69 | when every entry matches, the paths are all the entries, joined to the directory, in listing order |
| DataSources.MatchedFiles | inflammation/models.py:69 | the paths a source loads are exactly its directory joined to the listed entries that match `inflammation*` and the source's extension (`.csv`, models.py:99 `.json`) |
| DataSources.RowsOfRecords | inflammation/models.py:43 | succeeds exactly when every record has `observations`, with one row per record, in order, holding that record's observations; otherwise fails with `MissingField("observations")` |
| DataSources.LoadJson | inflammation/models.py:41-43 | a read error is passed on; succeeds exactly when the file reads and every record has `observations`; the rows are the records' observations in order |
| DataSources.Loader | inflammation/models.py:72 | a CSV source loads each file with the CSV parser, a JSON source with `LoadJson` (models.py:102) |
| DataSources.NoDataMessage | inflammation/models.py:71 | the message is "No inflammation data CSV files found in path " followed by the source's directory, for both kinds of source (models.py:101) |
| DataSources.LoadInflammationData | inflammation/models.py:52-104 | no matching file gives the "No inflammation data" error; succeeds exactly when some file matches and every matched file loads, with one table per matched file in match order; otherwise fails with the error of the first file that does not load |
| CrossDataset.Stack | inflammation/models.py:141 | stacking succeeds exactly on a nonempty list of equally long rows and keeps them; an empty list fails with `NothingToStack`, rows of different lengths with `ShapeMismatch` |
| CrossDataset.VarianceByDay | inflammation/models.py:143 | one non-negative variance per column |
| CrossDataset.VarianceByDayZeroIff | inflammation/models.py:143 | a column's variance is zero if and only if all rows agree on that column |
| CrossDataset.MeanOfTable | inflammation/models.py:140 | the daily mean of a table succeeds exactly on a well-formed table, and is then `DailyMean` of it |
| CrossDataset.ComputeVarianceByDay | inflammation/models.py:137-145 | succeeds exactly when there is at least one table, every table is well formed, and all have the same number of days; then one non-negative value per day. Otherwise: a malformed table gives `EmptyTable` or `RaggedTable`, no tables give `NothingToStack`, differing day counts give `ShapeMismatch`. On success, day `j`'s value is the variance of the tables' daily means on day `j` |
| CrossDataset.ComputeVarianceByDayZeroIff | inflammation/models.py:137-145 | for compatible tables, day `j`'s value is zero if and only if every table has the same mean on day `j` |
| CrossDataset.AnalyseData | inflammation/models.py:148-158 | no matching file gives the "No inflammation data" error; a load error is passed on; otherwise the result is the cross-dataset analysis of the loaded tables. On success there is one table per matched file, the tables are compatible, and there is one non-negative value per day |
| People.Last | inflammation/models.py:199-201 | no observation for an empty list; otherwise the final element |
| People.DefaultDay | inflammation/models.py:188-193 | the day after the latest observation, or 0 when there is none |
| People.NextObservation | inflammation/models.py:187-195 | the new observation has the given value, and the given day if there is one; otherwise the day after the latest observation, or day 0 for an empty list |
| People.Recorded | inflammation/models.py:187-197 | recording keeps the old observations as a prefix, adds exactly one, and the added one becomes the latest |
| People.RecordedAllConsecutive | inflammation/models.py:187-197 | readings recorded one after another on default days keep the old observations, keep their own order, and take consecutive days starting at the default day |
| People.Patient.constructor | inflammation/models.py:178-185 | a patient has the given name and the given observations, or none |
| People.Patient.LastObservation | inflammation/models.py:199-201 | the patient's latest observation, or none for a patient without observations |
| People.Patient.AddObservation | inflammation/models.py:187-197 | the returned observation is the one `NextObservation` prescribes; the list becomes the old list followed by it, and it is the latest observation |
| People.Admitted | inflammation/models.py:210-217 | after admission a patient of the new patient's name is on the list; the list is unchanged if one was there already, and extended by the new patient otherwise; distinct names stay distinct |
| People.AdmittedIdempotent | inflammation/models.py:210-217 | admitting the same patient a second time changes nothing |
| People.AdmittedAllDistinct | inflammation/models.py:210-217 | a run of admissions onto a list with distinct names keeps the old patients first, adds at most one patient per arrival, keeps the names distinct, and puts every arrival's name on the list |
| People.Doctor.constructor | inflammation/models.py:206-208 | a doctor has the given name and no patients |
| People.Doctor.AddPatient | inflammation/models.py:210-217 | the patient list becomes `Admitted(old list, new patient)`; the new patient is returned when added, and nothing when a patient of that name was already on the list |

## Left out

- CrossDataset.ComputeVarianceByDay: computes the population variance, not the standard deviation. The square root is left out, so the model's value is the square of the source's. Being zero, and the ordering of days by spread, are the same for both.
- CrossDataset.AnalyseData: returns the variance by day, for the same reason.
- DataSources.LoadInflammationData: no matching file gives the "No inflammation data" error, but the converse is not stated. A loader may fail with the same error value, so the error alone does not tell that nothing matched.
- Floating point: readings are exact reals. Rounding of sums, means and variances is not modelled.
- A table without rows: numpy's mean of an empty column is NaN, with a warning, and its maximum and minimum raise. The model refuses such a table with `EmptyTable` for all three reductions.
- `load_csv` (`np.loadtxt`) and file reading: the directory listing, the CSV parser and the JSON reader are parameters of the model (`DataSources.FileSystem`). They are not modelled. `np.loadtxt` turns a one-line file, and also a one-column file, into a one-dimensional array, so `daily_mean` of a one-column file gives a single number rather than a one-day series; neither case is modelled.
- Glob: only the pattern `inflammation*<ext>` is modelled, with no other metacharacters and no hidden-file rule. The order of the matches is the order the listing gives; `glob.glob` does not sort.
- Glob on the directory: the model takes the directory path literally. `glob.glob` also reads glob metacharacters in the directory itself (a directory `data[1]` matches nothing), and drops repeated trailing slashes when it rebuilds each path (`d//` gives `d/inflammation1.csv`, where `JoinPath` gives `d//inflammation1.csv`).
- A non-numeric table (the `TypeError` test in `tests/test_models.py`): readings are reals by type, so the case cannot arise.
- `Patient(name, observations)`: the model copies the given list. The source keeps the caller's list itself, so the caller sees later appends; that aliasing is not modelled.
- People.Patient.AddObservation: the source returns the very `Observation` object it appends, so a caller who changes its `day` or `value` changes the patient's latest observation. `Observation` is a value in the model, so that aliasing is not captured.
- `Person` is not a separate class. Its only content, the name, is a constant field of `Patient` and `Doctor`.
- The `__str__` methods of `Observation`, `Person`, `Patient` and `Doctor` are left out, because they only format text.
- `inflammation/compute_data.py` and the command-line script `inflammation-analysis.py` (plotting, argument parsing) are not part of this model.
