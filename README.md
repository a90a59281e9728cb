# WaveFinder pick-curation core in Dafny

WaveFinder helps an analyst find P-wave and S-wave arrivals in three-channel
seismograms. This project models and verifies the parts of WaveFinder that
turn the classifier's per-window outputs into picks, and that write and read
those picks as text.

- **Window batch and peak rule** (`neural_network_model.dfy`, module `NeuralNetwork`)
  - Each channel is zero-padded by 200 samples.
  - The padded signal is cut into 400-sample windows at stride 20. The model states the batch element by element.
  - `__get_maximums` is a strict-rise / non-increase local-maximum rule. The model proves it finds exactly the peaks, ascending, never two adjacent ones.
  - `CustomCallback` drives the progress bar. It is a class whose methods update a bar object.
- **Three-line marker** (`triade_lines.dfy`, module `TriadeLines`)
  - `VerticalTriadeLine` is a class holding three line states.
  - Every setter loops over all three lines. The class invariant keeps the lines equal in everything but position.
  - A drag moves only the dragged line. The other two follow only when a `setPos` runs afterwards.
- **Trace widget** (`trace_widget.dfy`, module `Trace`)
  - One `PickSet` object per phase holds the candidate list `der`, the accepted list `filt`, the markers and the two slider values.
  - The `TraceWidget` class owns the two pick sets, the prediction table and the selected marker.
  - Modelled operations:
    - slider changes and threshold recompute;
    - redrawing the markers;
    - delete and remove of a marker;
    - adding a marker, switching it between movable and fixed, and dragging it;
    - click and mouse-press selection;
    - the two resets;
    - the RAW and PKS writers.
  - The index and position converters are pure functions with round-trip lemmas.
- **Record** (`seismogram.dfy`, module `Seismograms`): the subset of `Seismogram` that the core reads. `reset_trace` and `apply_filter` are methods; the filter itself is a parameter.
- **Evaluation script** (`get_experiment.dfy` module `Experiment`, `compute_score.dfy` module `Scoring`)
  - Each of the two `get_matrix` reading loops is a method proved equal to a section-based specification.
  - The RAW file written by `get_raw` is proved to read back as the candidates' dictionaries.
  - `compute_score`'s counting loop is a method proved against set-cardinality definitions.
  - Properties proved about the four metrics: zero guards, ranges and signs.
- **Main window** (`main_window.dfy` module `Stations`, `main_form.dfy` module `Window`)
  - `sort_stations`, with its extended-slice swap.
  - The per-file grouping in `add_seismograms`.
  - `get_file_path`.
  - The `MainWindow` class whose methods walk the widget list. These are select-all, invert, apply-filter (stopping at the first failure), apply-NN and reset. Each acts on the checked entries only.

Shared helpers: `wrappers.dfy` holds `Option`, which stands for `None` and for a call that raises. `text.dfy` holds decimal integers, `str.split`, `rstrip('\n')` and `readlines()`.

Probabilities, timestamps and samples are exact `real`s. The classifier, the float formatter and parser, `math.sqrt`, the Butterworth filter and the file reader are function parameters.

Six behaviours of the code that the model keeps as they are written:
- `reset_prediction` keeps the accepted list and the candidate list.
- Dragging a marker moves only the marker. It changes no index list.
- `_delete_line` drops a window from the lists whenever the marker's position maps to an accepted window, manual markers included.
- Clicking a marker resets the pens of its own class only. A marker of the other class keeps its hover pen.
- A drag that ends with the cursor outside every plot leaves the dragged line apart from the other two lines of its marker.
- `enable_sliders` sets each confidence slider to 1. A slider already at 1 emits no change, so the accepted list and the markers from before apply NN stay.

## Model

| member | source | states |
|---|---|---|
| NeuralNetwork.PadChannel | NeuralNetworkModel.py:45-47 | a padded channel is 200 zeros, the channel, 200 zeros: length n + 400, sample k is c[k-200] inside and 0 outside |
| NeuralNetwork.PadTraces | NeuralNetworkModel.py:43-49 | the three padded channels keep equal length n + 400, each the padded original |
| NeuralNetwork.WindowCount | NeuralNetworkModel.py:165 | (length - 400) div dx + 1 is at least 1, the last window ends inside the array and one more would not fit |
| NeuralNetwork.WindowInside | NeuralNetworkModel.py:165-166 | every counted window k ends inside the padded array |
| NeuralNetwork.WindowAt | NeuralNetworkModel.py:166-167 | the window at a start is the 400-sample slice of each channel from there |
| NeuralNetwork.SlidingWindow | NeuralNetworkModel.py:164-167 | the strided view has WindowCount windows and window k is the slice starting at k * dx |
| NeuralNetwork.WindowLengths | NeuralNetworkModel.py:166-167 | every channel of every window holds 400 samples |
| NeuralNetwork.WindowElement | NeuralNetworkModel.py:166-167 | sample t of channel c in window k is sample 20k + t of the channel |
| NeuralNetwork.Transpose | NeuralNetworkModel.py:54 | transposing axes 1 and 2 gives element [k][t][c] == w[k][c][t] with the shapes swapped |
| NeuralNetwork.MakeBatch | NeuralNetworkModel.py:43-54 | the batch has n div 20 + 1 windows of 400 x 3 and element [k][t][c] is padded sample 20k + t of channel c |
| NeuralNetwork.BatchSample | NeuralNetworkModel.py:43-54 | each batch element is the original sample 20k + t - 200, or 0 where the window overhangs the signal |
| NeuralNetwork.PeaksFrom | NeuralNetworkModel.py:160-162 | the scan from lo returns exactly the peaks at or after lo, strictly ascending |
| NeuralNetwork.Maximums | NeuralNetworkModel.py:159-162 | __get_maximums returns exactly the indices with a strict rise in and a non-increase out, ascending, never two adjacent, none for length <= 2 |
| NeuralNetwork.PeaksApart | NeuralNetworkModel.py:162 | two peaks are never neighbours, and a sequence of at most two values has none |
| NeuralNetwork.NoPeakFrom | NeuralNetworkModel.py:160-162 | with no peak from lo on, the scan from lo is empty |
| NeuralNetwork.SinglePeakFrom | NeuralNetworkModel.py:160-162 | with m the only peak from lo on, the scan from lo is [m] |
| NeuralNetwork.NoPeakNoCandidate | NeuralNetworkModel.py:160-162 | no peak means no candidate |
| NeuralNetwork.IncreasingHasNoPeak | NeuralNetworkModel.py:162 | a strictly increasing sequence has no candidate |
| NeuralNetwork.NonIncreasingHasNoPeak | NeuralNetworkModel.py:162 | a non-increasing sequence has no candidate |
| NeuralNetwork.PlateauFirstIndex | NeuralNetworkModel.py:162 | a plateau reached by a rise is reported at its first index and not its second |
| NeuralNetwork.UnimodalSinglePeak | NeuralNetworkModel.py:159-162 | a strict bump rising to m and falling after it yields exactly [m] |
| NeuralNetwork.Column | NeuralNetworkModel.py:59-60 | a definition (column 0 is the P probabilities, column 1 the S, column 2 the noise); what the source promises of it is proved at NeuralNetwork.GetPrediction |
| NeuralNetwork.GetPrediction | NeuralNetworkModel.py:41-61 | the table is the classifier on the batch (n div 20 + 1 rows); P candidates are exactly the peaks of column 0 and S candidates of column 1, ascending, each starting inside the unpadded signal |
| NeuralNetwork.CandidateStartsInSignal | NeuralNetworkModel.py:165 | a window index that can be a peak starts before the end of the unpadded signal |
| NeuralNetwork.CountSize | NeuralNetworkModel.py:174-175 | count_size is N div 32 when that is positive and 1 otherwise, so never 0 |
| NeuralNetwork.PercentageInRange | NeuralNetworkModel.py:185-187 | every batch of a prediction over N windows reports a percentage in [0, 100] |
| NeuralNetwork.PercentageMonotone | NeuralNetworkModel.py:186 | a later batch never reports a smaller percentage |
| NeuralNetwork.PredictCallback.constructor | NeuralNetworkModel.py:171-175 | the callback keeps the bar and count_size of the window count |
| NeuralNetwork.PredictCallback.OnPredictBegin | NeuralNetworkModel.py:177-179 | the bar becomes visible at 0 |
| NeuralNetwork.PredictCallback.OnPredictEnd | NeuralNetworkModel.py:181-183 | the bar is set to 100 and hidden |
| NeuralNetwork.PredictCallback.OnPredictBatchEnd | NeuralNetworkModel.py:185-187 | the bar shows int(batch / count_size * 100) and keeps its visibility |
| TriadeLines.VerticalTriadeLine.constructor | TriadeLines.py:5-55 | three aligned lines at pos, equal in every other field, fixed, drawn with the class's base pen (black, red (255,0,0) for P, green (0,255,0) for S), hover pen (255,190,11) |
| TriadeLines.VerticalTriadeLine.SetMovables | TriadeLines.py:23-25 | all three lines take the movable state, so movable() returns it; nothing else changes |
| TriadeLines.VerticalTriadeLine.SetPos | TriadeLines.py:27-29 | all three lines move to x, so the marker is aligned and pos() returns x; nothing else changes |
| TriadeLines.VerticalTriadeLine.SetPen | TriadeLines.py:31-33 | all three lines take the same pen; nothing else changes |
| TriadeLines.VerticalTriadeLine.DragLine | CustomInfiniteLine.py:4-7 | a drag of line k (a pyqtgraph InfiniteLine) moves that line alone to x; the other two lines keep their position |
| Seismograms.Seismogram.constructor | Seismogram.py:9-18 | a record keeps its identifiers, time bounds and resampled channels, and starts with them as current channels |
| Seismograms.Seismogram.ResetTrace | Seismogram.py:29-30 | the current channels go back to the resampled originals |
| Seismograms.Seismogram.ApplyFilter | Seismogram.py:32-34 | on success the channels become the filter's output of the old channels, on failure they stay as they were; the shape is kept |
| Trace.GraphicIndexFromModel | TraceWidget.py:191-192 | the first sample of window i, which _model_index_from_graphic maps back to i |
| Trace.ModelIndexFromGraphic | TraceWidget.py:309-312 | sample g lies in the stride block of the window returned |
| Trace.Trunc | TraceWidget.py:319 | int() on a float truncates toward zero |
| Trace.TimestampList | TraceWidget.py:81-89 | n evenly spaced times, the first at start and the last at end |
| Trace.ScaledFraction | TraceWidget.py:317-319 | a shift before, inside or after the span scales to <= 0, to [0, n) or to >= n |
| Trace.Scale | TraceWidget.py:317-319 | a time before the record scales to <= 0, after it to >= n, inside it into [0, n) |
| Trace.GraphicIndexFromPosition | TraceWidget.py:314-324 | a time maps to a sample in [0, n-1]: 0 before the start, n-1 after the end, otherwise the sample whose slot holds the scaled time |
| Trace.TimestampFraction | TraceWidget.py:85-89 | the timestamp of sample g scales to g + g/(n-1) |
| Trace.PositionRoundTrip | TraceWidget.py:314-324 | the timestamp of sample g maps back to sample g |
| Trace.MarkerIndexRoundTrip | TraceWidget.py:260-264 | a marker drawn for window i is read back as window i when it is deleted |
| Trace.GetThresholds | TraceWidget.py:168-175 | a definition (each threshold is its slider's value / 100, the moved slider supplying the emitted value); its use is proved at Trace.TraceWidget.SetSliderValue |
| Trace.Accepted | TraceWidget.py:159-161 | the accepted list holds exactly the candidates that pass prob > first and noise < second, as a subsequence of the candidates in their order |
| Trace.AcceptedSnoc | TraceWidget.py:159-161 | one more candidate is appended to the accepted list exactly when it passes |
| Trace.AcceptedMonotone | TraceWidget.py:157-161 | a stricter pair of thresholds accepts a subsequence of what the looser pair accepts, namely its filter of that list |
| Trace.AcceptedIdempotent | TraceWidget.py:157-161 | filtering again with the same thresholds gives the same list |
| Trace.RemoveFirst | TraceWidget.py:265-266 | list.remove drops one occurrence of x and keeps the rest in order |
| Trace.RemoveFirstDistinct | TraceWidget.py:266 | in a list without repeats, remove takes x out entirely and keeps the list without repeats |
| Trace.DeletionIsPermanent | TraceWidget.py:260-267 | once a window is removed from the candidate list, no thresholds accept it again |
| Trace.RawSection | TraceWidget.py:219-225 | a definition (one RAW line per candidate, in candidate order); that these lines read back as the candidates is proved at Experiment.RawReadBack |
| Trace.PickSet.constructor | TraceWidget.py:27-40 | a phase starts with empty candidate, accepted and marker lists and the given slider values |
| Trace.PickSet.Filter | TraceWidget.py:157-161 | the cleared-and-rebuilt accepted list is Accepted of the candidates |
| Trace.PickSet.DropIndex | TraceWidget.py:264-266 | an accepted window leaves the accepted list, then the candidate list; der.remove raises exactly when it is accepted but not a candidate; nothing changes otherwise |
| Trace.PickSet.DropLine | TraceWidget.py:272 | the marker leaves the marker list (a marker not in it raises and changes nothing) |
| Trace.PickSet.Delete | TraceWidget.py:260-267 | the window is dropped as in DropIndex and, unless that raised, the marker leaves the list |
| Trace.PickSet.ShowMarkers | TraceWidget.py:179-184 | the marker list becomes one fresh fixed marker per accepted window, in order, at the window's first timestamp |
| Trace.PickSet.ResetPens | TraceWidget.py:250-251 | every marker of the list goes back to its base pen and changes nothing else |
| Trace.TraceWidget.constructor | TraceWidget.py:18-48 | a widget starts with no prediction, no markers, no selection, disconnected sliders and the given slider values |
| Trace.TraceWidget.SetPrediction | TraceWidget.py:112-118 | the table and both candidate lists are installed; accepted lists and markers stay as they were |
| Trace.TraceWidget.UpdateValues | TraceWidget.py:155-162 | the phase's accepted list becomes the candidates filtered by the thresholds, and its markers become exactly one fresh marker per accepted window |
| Trace.TraceWidget.FilterPhase | TraceWidget.py:157-161 | the phase's accepted list becomes Accepted of its candidates; the widget stays valid |
| Trace.TraceWidget.ShowPrediction | TraceWidget.py:177-189 | the phase's old markers are dropped and replaced by one fresh marker per accepted window |
| Trace.TraceWidget.SetSliderValue | TraceWidget.py:150-153 | the slider takes the value; a change while connected recomputes the phase's accepted list and markers, otherwise they stay |
| Trace.TraceWidget.EnableSliders | TraceWidget.py:147-153 | the sliders are connected and both confidence sliders move to 1; a phase whose slider moved shows its filtered picks |
| Trace.TraceWidget.ResetPrediction | TraceWidget.py:194-201 | both marker lists are cleared and the prediction is dropped |
| Trace.TraceWidget.ResetSliders | TraceWidget.py:203-214 | _update_values is disconnected, confidence sliders at 0 and noise sliders at 80 |
| Trace.TraceWidget.GetRaw | TraceWidget.py:216-226 | "P", one line per P candidate, "S", one line per S candidate (2 + \|pDer\| + \|sDer\| lines); raises without a prediction |
| Trace.TraceWidget.GetLinesAsPks | TraceWidget.py:228-238 | three lines per marker, P markers then S markers, line 3j + c being marker j on channel c |
| Trace.TraceWidget.MousePress | TraceWidget.py:249-253 | every marker goes back to its base pen and nothing is selected |
| Trace.TraceWidget.ClickPrediction | TraceWidget.py:326-331 | the clicked marker is selected and is the only marker of its class with the hover pen |
| Trace.TraceWidget.RemoveLine | TraceWidget.py:269-272 | only the selected marker leaves its class's list; the index lists are untouched |
| Trace.TraceWidget.DeleteLine | TraceWidget.py:260-267 | the selected marker's window, when accepted, leaves both lists (for good) and the marker is removed; the other phase is unchanged |
| Trace.TraceWidget.SwitchMovableLine | TraceWidget.py:274-281 | the selected marker's three lines flip between movable and fixed |
| Trace.TraceWidget.HandleDragged | TraceWidget.py:333-341 | after line k is dragged to x: with the cursor over a plot, all three lines align at the cursor's time; otherwise only line k has moved, and a marker that was aligned is no longer aligned when x differs from its position |
| Trace.TraceWidget.AddLine | TraceWidget.py:289-299 | a fresh marker of the phase at the cursor's time is appended; off the plots or before any prediction nothing changes |
| Trace.TraceWidget.KeyPress | TraceWidget.py:255-258 | D, R, M, F and B dispatch to their handlers; N and any other key leave the pick sets untouched |
| Text.NatToString | TraceWidget.py:220 | str() of a non-negative int: one or more digits, no sign, blank or newline, never a header |
| Text.DigitsValueOfNatToString | TraceWidget.py:220 | the digits written for n read back as n |
| Text.TrimStart | resources/get_experiment.py:70 | int() drops leading whitespace: the result is no longer and does not start with a whitespace character |
| Text.TrimStartShape | resources/get_experiment.py:70 | the part dropped from the front is all whitespace and the rest is a suffix |
| Text.TrimEnd | resources/get_experiment.py:70 | int() drops trailing whitespace: the result is no longer and does not end with a whitespace character |
| Text.TrimEndShape | resources/get_experiment.py:70 | the part dropped from the back is all whitespace and the rest is a prefix |
| Text.Strip | resources/get_experiment.py:70 | the stripped text starts and ends with a non-whitespace character, or is empty |
| Text.StripPadded | resources/get_experiment.py:70 | whitespace around a token with non-whitespace ends strips back to exactly that token |
| Text.DropUnderscores | resources/get_experiment.py:70 | removing the digit separators of a numeral leaves only digits, at least one |
| Text.ParseToken | resources/get_experiment.py:70 | a stripped token is an integer exactly when it is a numeral (digits, single underscores between digits) after an optional '+' or '-'; a '-' gives a value <= 0, otherwise >= 0 |
| Text.ParseInt | resources/get_experiment.py:70 | int() of a string succeeds exactly when its whitespace-stripped text is such a signed numeral, with that sign |
| Text.ParseIntOfDigits | resources/get_experiment.py:89 | int() of a digit string is its decimal value |
| Text.ParseIntPadded | resources/get_experiment.py:70 | surrounding whitespace does not change int() |
| Text.ParseIntSigned | resources/get_experiment.py:70 | int('+' + digits) is their value and int('-' + digits) its negation |
| Text.ParseIntUnderscore | resources/get_experiment.py:70 | one underscore between two digit strings is ignored by int() |
| Text.ParseIntOfNatToString | resources/get_experiment.py:89 | int(str(n)) == n |
| Text.Split | resources/get_experiment.py:89-90 | split(' ') gives at least one field, none containing the separator |
| Text.SplitCons | resources/get_experiment.py:89-90 | a separator-free prefix followed by a separator is the first field |
| Text.RStripNewlinesShape | resources/get_experiment.py:64 | rstrip('\n') keeps a prefix not ending in a newline and drops only newlines |
| Text.RStripOfLine | resources/get_experiment.py:64 | a line without newline plus "\n" strips back to itself |
| Text.ReadLinesCons | resources/get_experiment.py:81 | readlines() splits off a first line that ends at the first newline |
| Text.ReadLinesOfWriteLines | main.py:159-161 | reading back items written each with "\n" gives the items, each with its newline |
| Experiment.FirstSShape | resources/get_experiment.py:63-68 | no line before FirstS is an "S" header and the line at FirstS is one |
| Experiment.FirstSAt | resources/get_experiment.py:63-68 | the first "S" header is at f when line f is one and no earlier line is |
| Experiment.HeaderLines | resources/get_experiment.py:64-66 | "P\n" is a header but not an "S" header, "S\n" is an "S" header |
| Experiment.DataLinesMembers | resources/get_experiment.py:63-68 | the data lines are exactly the lines that are not headers |
| Experiment.ParseAll | resources/get_experiment.py:70-72 | a successful parse has one value per item |
| Experiment.ParseAllFails | resources/get_experiment.py:70-72 | one item that fails to parse makes the section fail |
| Experiment.SectionsSnoc | resources/get_experiment.py:63-72 | one more line extends the S section after an "S" header, opens an empty S section at the first one, and otherwise extends the P section |
| Experiment.SnocAfterS | resources/get_experiment.py:66-72 | after the first "S" header a line only extends the S section |
| Experiment.SnocOpensS | resources/get_experiment.py:66-68 | the first "S" header closes the P section and opens an empty S section |
| Experiment.SnocBeforeS | resources/get_experiment.py:63-70 | before any "S" header a line only extends the P section |
| Experiment.LabelLoopSections | resources/get_experiment.py:57-74 | after any prefix the label loop's flag says no "S" header has been seen and its lists are the parsed P and S sections, or it has raised |
| Experiment.ReadLabels | resources/get_experiment.py:57-74 | the label loop returns the integers of the lines before the first "S" header as P picks and after it as S picks, headers skipped, or raises on a non-integer line |
| Experiment.LabelLoopFails | resources/get_experiment.py:70-72 | once the label loop has raised, the file raises |
| Experiment.ToMap | resources/get_experiment.py:89-93 | the dictionary's keys are exactly the entries' indices |
| Experiment.ToMapLastWins | resources/get_experiment.py:89-93 | a repeated index keeps the values of its last line |
| Experiment.PredHeaderStep | resources/get_experiment.py:83-87 | a header line keeps the loop equal to its specification |
| Experiment.PredDataStep | resources/get_experiment.py:88-93 | a data line keeps the loop equal to its specification |
| Experiment.PredExpectedSnoc | resources/get_experiment.py:88-93 | the sections after one more data line are one loop step on the sections before |
| Experiment.EntrySnoc | resources/get_experiment.py:88-93 | one more data line fails the section or assigns its entry in the dictionary |
| Experiment.PredLoopSections | resources/get_experiment.py:76-95 | the prediction loop computes the dictionaries of the two sections |
| Experiment.PredLoopFails | resources/get_experiment.py:89-93 | once the prediction loop has raised, the file raises |
| Experiment.ReadPredictions | resources/get_experiment.py:76-95 | the prediction loop returns the P-section entries in the P dictionary and the S-section entries in the S dictionary, later lines overriding, or raises on a bad line |
| Experiment.ToMapConsistent | resources/get_experiment.py:89-93 | when equal indices carry equal values, every entry is in the dictionary as written |
| Experiment.RawFields | resources/get_experiment.py:89-90 | a RAW line splits into its index, probability and noise fields |
| Experiment.RawLineNoNewline | TraceWidget.py:220-221 | a RAW line holds no newline |
| Experiment.RawLineParses | resources/get_experiment.py:89-90 | a RAW line with its newline is a data line that parses to its window's sample index and values |
| Experiment.RawEntries | resources/get_experiment.py:89-90 | the entries a phase's RAW lines read back as are keyed by 20 * window |
| Experiment.SectionEntries | resources/get_experiment.py:88-93 | a phase's RAW lines are data lines parsing to that phase's entries |
| Experiment.FirstSOfLayout | resources/get_experiment.py:63-68 | in "P", data, "S", data the first "S" header follows the P data |
| Experiment.HeaderedSections | resources/get_experiment.py:63-72 | a file laid out as "P", data, "S", data has exactly those two sections |
| Experiment.SectionNoNewline | TraceWidget.py:219-225 | no RAW line of a phase holds a newline |
| Experiment.RawNoNewline | TraceWidget.py:216-226 | no line of a RAW list holds a newline |
| Experiment.RawText | main.py:159-161 | the RAW file reads back as its lines, each with a newline |
| Experiment.LayoutPredictions | resources/get_experiment.py:76-95 | a "P", data, "S", data file holds the dictionaries of its two data parts |
| Experiment.RawRoundTrip | resources/get_experiment.py:76-95 | the text of a RAW list, read back by the prediction loop, gives the P candidates' entries in the P dictionary and the S candidates' in the S dictionary |
| Experiment.RawMapKeys | resources/get_experiment.py:89-93 | a read-back dictionary's keys are exactly 20 * i for the phase's candidates i |
| Experiment.RawMapValues | resources/get_experiment.py:89-93 | each candidate's key maps to its probability and noise as formatted and read back |
| Experiment.RawReadBack | main.py:155-161 | saving a predicted widget's RAW list and reading the file back gives each phase's candidate dictionary |
| Scoring.Partition | resources/get_experiment.py:18-20 | up and down are disjoint and together are the file's predicted keys |
| Scoring.SplitCounts | resources/get_experiment.py:23-26 | TP, FP, FN and TN of a file count each predicted key once, and TP + FN the keys that are true |
| Scoring.FileCountsTotal | resources/get_experiment.py:23-26 | a file's four counts add up to its number of predicted keys |
| Scoring.FileCountsMatched | resources/get_experiment.py:23-25 | a file's TP + FN is the number of its true indices that are predicted keys |
| Scoring.TotalCountsKeys | resources/get_experiment.py:17-26 | TP + FP + FN + TN is the number of predicted keys over all files |
| Scoring.TotalCountsMatched | resources/get_experiment.py:17-26 | TP + FN counts only true indices that are also predicted keys |
| Scoring.UpShrinks | resources/get_experiment.py:18-19 | a higher i or lower j accepts a subset of the keys |
| Scoring.FileMonotone | resources/get_experiment.py:23-24 | a stricter pair never increases a file's TP or FP |
| Scoring.TotalMonotone | resources/get_experiment.py:17-24 | raising i or lowering j never increases TP or FP |
| Scoring.F1AsWritten | resources/get_experiment.py:28-32 | f1 as written is 0 when TP + FP or TP + FN is 0 |
| Scoring.F1 | resources/get_experiment.py:28-32 | the corrected f1 is 0 when TP + FP or TP + FN is 0 |
| Scoring.F1AsWrittenRaises | resources/get_experiment.py:28-32 | the f1 formula as written divides by zero exactly when TP = 0 < FP, FN, and otherwise equals the corrected F1 |
| Scoring.F1Value | resources/get_experiment.py:28-32 | the corrected f1 is 2TP / (2TP + FP + FN) for TP > 0, 0 otherwise, in [0, 1] |
| Scoring.HarmonicMean | resources/get_experiment.py:32 | 2PR / (P + R) with P = t/a, R = t/b is 2t / (a + b) |
| Scoring.GMean | resources/get_experiment.py:34-35 | g_mean is 0 when TP + FN or TN + FP is 0 |
| Scoring.GMeanValue | resources/get_experiment.py:34-35 | g_mean squared is recall times specificity, and g_mean lies in [0, 1] |
| Scoring.RootProduct | resources/get_experiment.py:35 | the product of the roots of two numbers in [0, 1] squares to their product and lies in [0, 1] |
| Scoring.P4 | resources/get_experiment.py:37-38 | p_4 is 0 when its denominator is 0 |
| Scoring.P4Value | resources/get_experiment.py:37-38 | p_4 lies in [0, 1] and is positive exactly when TP and TN are |
| Scoring.MCC | resources/get_experiment.py:40-41 | mcc is 0 when a marginal is 0 |
| Scoring.MCCSign | resources/get_experiment.py:40-41 | mcc has the sign of TP·TN − FP·FN whenever no marginal is 0 |
| Scoring.ComputeScore | resources/get_experiment.py:12-43 | the loop accumulates the counts of every file and returns the four metrics of the totals, f1 as written; raises exactly when there are fewer label lists than prediction files or the as-written f1 divides by zero |
| Scoring.TotalCountsStep | resources/get_experiment.py:17-26 | one more file adds its own counts to the totals |
| Scoring.Grid | resources/get_experiment.py:97-98 | 101 x 101 pairs, each in [0, 100] x [0, 100] |
| Scoring.GridCovers | resources/get_experiment.py:97-98 | every pair (i, j) of the square is in the grid, at 101 i + j |
| Scoring.ScoreGrid | resources/get_experiment.py:97-112 | when get_matrix completes, there were enough label lists and there is one score per grid pair |
| Scoring.ScoreGridCell | resources/get_experiment.py:97-112 | a raise at (i, j) leaves no matrix; otherwise matrix cell (i, j) receives the score computed at thresholds (i, j), whose f1 is the as-written value |
| Scoring.ScoreGridRaises | resources/get_experiment.py:97-112 | get_matrix yields its matrices exactly when compute_score raises at no pair of the square |
| Scoring.WitnessCounts | resources/get_experiment.py:17-26 | a file with one accepted non-true key and one rejected true key gives TP = 0, FP = 1, FN = 1, TN = 0 |
| Scoring.WitnessExists | resources/get_experiment.py:18-19 | such a prediction file exists |
| Scoring.WitnessGridRaises | resources/get_experiment.py:28-32 | on such a file, labelled with its rejected key, get_matrix yields no matrix |
| Stations.StrLeqTotal | main.py:227 | any two strings are ordered one way or the other |
| Stations.StrLeqAntisymmetric | main.py:227 | strings ordered both ways are equal |
| Stations.StrLeqTransitive | main.py:227 | string order is transitive |
| Stations.KeyLeqTotal | main.py:227 | any two traces are ordered by (station, channel) one way or the other |
| Stations.KeyLeqTransitive | main.py:227 | the (station, channel) order is transitive |
| Stations.Insert | main.py:227 | inserting adds exactly x to the multiset |
| Stations.InsertSorted | main.py:227 | insertion into a sorted list keeps it sorted |
| Stations.SortByKey | main.py:227 | sorting keeps the multiset of traces |
| Stations.SortByKeySorted | main.py:227 | the sorted list is ordered by (station, channel) and a permutation of the input |
| Stations.Stride | main.py:228 | s[start::3] has (len + 2 - start) div 3 elements, element q being s[start + 3q] |
| Stations.AssignStride | main.py:228 | s[start::3] = vals raises exactly when the lengths differ and keeps the length |
| Stations.PairSwap | main.py:228 | swapping the first two of every triple keeps the length |
| Stations.PairSwapIndex | main.py:228 | element k after the swap is its partner in the triple, or itself for a third or a trailing single |
| Stations.PairSwapPermutes | main.py:228 | the swap is a permutation |
| Stations.PairSwapTwice | main.py:228 | swapping twice gives back the list |
| Stations.StrideLengths | main.py:228 | s[::3] and s[1::3] have equal lengths exactly when len mod 3 != 1 |
| Stations.SwapTriplesSpec | main.py:228 | the tuple assignment raises exactly when len mod 3 == 1 and otherwise swaps the first two of every triple |
| Stations.SortStationsSpec | main.py:226-229 | sort_stations raises exactly when len mod 3 == 1, otherwise returns the sorted list with each triple's first two swapped, a permutation of the input |
| Stations.Chunks | main.py:121-122 | the chunks sts[i:i+3] number (len + 2) div 3 |
| Stations.GroupsOfShort | main.py:121-122 | two traces left over make a chunk too short for a record |
| Stations.GroupsOfFull | main.py:121-122 | a multiple of three gives len / 3 records of three traces that together are the list in order |
| Stations.FileGroupsSpec | main.py:119-122 | a file yields records exactly when its trace count is a multiple of 3: then len / 3 records of three, together the sorted and swapped traces |
| Stations.CollectedAppend | main.py:118-128 | a failing file does not stop the others: the records of a + b are those of a then of b |
| Stations.AddSeismograms | main.py:116-128 | the loop collects each file's records in file order, skipping a file that fails entirely |
| Stations.Basename | main.py:181 | the base name is the longest separator-free suffix of the path |
| Stations.GetFilePath | main.py:179-184 | the long name is chosen + "_" + basename + "_" + station, the short one the chosen path |
| Window.Install | main.py:72-73 | set_prediction then enable_sliders install the prediction and both candidate lists, with both confidence sliders at 1; a phase whose slider moved shows exactly the accepted windows of the new prediction, a phase whose slider was already at 1 keeps its old accepted list and markers; the noise sliders and the selected marker are unchanged |
| Window.ResetEntry | main.py:79-82 | an entry goes back to its original channels, with no prediction or markers and reset sliders |
| Window.FilterChecked | main.py:102-110 | checked entries are filtered in list order until the first failure; that entry and every later or unchecked entry keeps its channels |
| Window.PredictionFits | main.py:70-72 | for a classifier that returns one row per window, both candidate lists of the prediction index rows of its table, map to samples inside the record, and hold no repeats: the prediction is one set_prediction accepts |
| Window.ClassifyStep | main.py:69-73 | entry k holds the classifier's prediction of its current channels, installed as Install states; every other entry keeps its state |
| Window.ClassifyChecked | main.py:68-73 | every checked entry holds the classifier's prediction of its channels, installed as Install states relative to that entry's state before the loop |
| Window.ResetStep | main.py:77-82 | resetting entry k leaves every other entry unchanged |
| Window.ResetChecked | main.py:77-82 | every checked entry is reset; only checked entries' state may change |
| Window.MainWindow.constructor | main.py:55-56 | the list starts empty |
| Window.MainWindow.SelectAll | main.py:58-64 | every entry's box takes the state of the "for all" box |
| Window.MainWindow.InvertSelection | main.py:84-90 | every entry's box is flipped exactly once, so inverting twice restores the selection |
| Window.MainWindow.ApplyFilter | main.py:92-110 | checked entries before the first failure are filtered, the failing one and all later or unchecked ones keep their channels |
| Window.MainWindow.ApplyNN | main.py:66-73 | checked entries hold the classifier's prediction, installed as Install states; unchecked entries are untouched |
| Window.MainWindow.ResetSeismograms | main.py:75-82 | checked entries are reset; unchecked entries and their records are untouched |

## Left out

- The Keras classifier: STFT, `MaxABSScaler`, the residual network, weight loading and device choice are foreign numerics. The classifier is the parameter `predict`. Its only assumption is one row per window.
- Floating point: probabilities, timestamps and samples are exact reals. Rounding in `int(batch / count_size * 100)`, `float(value) / 100.0` and `time_diff / (len - 1)` is not modelled.
- Python's `str()` of a float and `float()` of a string are the parameters `fmt` and `parseReal`. The RAW read-back relies only on the fact that `parseReal` accepts what `fmt` writes (`ReadableFormat`).
- Calendar formatting (`utcfromtimestamp`/`strftime`) in PKS lines is the parameter `fmtTime`. The same applies to the crosshair's time label.
- `math.sqrt` is a parameter satisfying `IsSqrt`.
- Text.ParseInt: Python's `int()` also accepts decimal digits of other Unicode scripts (Arabic-Indic, full-width and so on). The model accepts only ASCII digits. The Unicode digit tables are not modelled.
- Resampling (obspy `interpolate`), the Butterworth design and `sosfilt`, and `obspy.read` are library calls. They enter as values (`resampled`) and parameters (`filter`, `read`).
- File I/O:
  - `save_seismograms`, `save_raw`, `save_as_pks`, `save_as_png` and `get_complex_image` are not modelled.
  - The RAW text is modelled as the line list `get_raw` returns, written one item per line.
- Qt wiring and drawing:
  - signal connect/disconnect as such, `refresh_plots` and `_update_labels`;
  - `_update_crosshair` and `_normalize_y_range`, which only change the view;
  - plot item add/remove, `QListWidget` bookkeeping and the cursor-to-scene mapping.
  
  A cursor over a plot is an `Option<real>` time.
- The filter dialog's text parsing in `apply_filter` (main.py:94-101) is not modelled. `filter` stands for the dialog's parameters applied to the channels.
- Widget creation in `add_seismograms` (main.py:130-136), `clear_seismogram_list` and `MainWindow.keyPressEvent` only append to or remove from the widget list. The model does not cover them.
- `ProcessPoolExecutor`, file globbing and `os_sorted`, `input()` and the commented-out plots in the evaluation script. These are concurrency and I/O. The grid is modelled as the sequence of scores in argument order.
- Trace.GraphicIndexFromPosition: requires start < end and n >= 1. The source divides by the time span, and a zero span raises. The model does not represent a record with a zero span.
- Trace.TimestampList: requires n >= 2. The source divides by len - 1, which raises for a one-sample record. The widget constructor therefore requires two samples.
- Trace.TraceWidget.KeyPress: states only what N and unknown keys leave unchanged. The effects of D, R, M, F and B are the contracts of DeleteLine, RemoveLine, SwitchMovableLine and AddLine, which it calls.
- Trace.TraceWidget.ShowPrediction: removing the old markers from the plots is drawing. The model states only the new marker list.
- Stations.SortByKey: it is proved sorted and a permutation. Stability (equal keys keep arrival order) is built into `Insert` but not proved.
- Stations.Basename: models `os.path.basename` as it behaves on Windows, where both '/' and '\\' separate. On a POSIX system only '/' separates. A drive prefix such as `C:` is not split off.
- Window.MainWindow.ApplyNN: the progress bar it passes to `get_prediction` is not modelled. The method does not track which marker objects `enable_sliders` draws afresh; it states the marker lists' contents.
- Window.MainWindow.ResetSeismograms: `refresh_plots` is drawing.
- Trace.TraceWidget.ResetPrediction: as in the source, the accepted lists and the candidate lists are not cleared. Only the prediction flag and the markers change.
- NeuralNetwork.PredictCallback.OnPredictBatchEnd: the percentage is `(batch * 100) div count_size` in exact arithmetic. The source computes it in floating point and truncates.

## Findings

| source | as written | input that shows it | evidently intended | confidence | as-written member | corrected member |
|---|---|---|---|---|---|---|
| resources/get_experiment.py:28-32 | f1 is computed whenever TP + FP and TP + FN are non-zero, as 2PR / (P + R) | counts TP = 0, FP = 1, FN = 1, TN = 0 (one accepted key that is not true, one rejected key that is): P = R = 0 and the division raises ZeroDivisionError, which stops the whole grid | f1 = 0 when TP = 0, i.e. 2TP / (2TP + FP + FN) | not executed | Scoring.F1AsWritten (Scoring.F1AsWrittenRaises, Scoring.WitnessCounts, Scoring.WitnessGridRaises; used by Scoring.ComputeScore and Scoring.ScoreGrid) | Scoring.F1 (Scoring.F1Value) |
