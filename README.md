# PycQED core, modelled in Dafny

This project models four parts of PycQED, a Python framework for
superconducting-qubit experiments, and proves properties of them.

- **The optimal-operating-point extractor** of the conditional-oscillation
  heatmap analysis (`pycqed/analysis_v2/fluxing_analysis.py`). It works in
  four steps:
  - A tolerance ladder selects the sweep samples whose conditional phase
    lies close to the target and whose leakage is low, away from the sweep
    boundary.
  - Single-linkage clustering groups the survivors.
  - Each cluster is represented by the member of lowest neighbourhood-averaged
    leakage (`av_around`).
  - The clusters are ranked by leakage, relative to the largest, per member.

  The module also covers the reshaping helper `interp_to_1D_arr`, the
  quantity-name sets of the analysis, and the parts of `process_data` that
  consume the extractor's result.
- **String and encoding helpers** of `pycqed/utilities/general.py`:
  `str_to_bool`, `bool_to_int_str`, `int_to_bin`, `to_hex_string`,
  `dict_to_ordered_tuples` and `add_suffix_to_dict_keys`.
- **The OpenQL sequence builders** of
  `pycqed/measurement/openql_experiments/multi_qubit_oql.py`:
  - state-combination strings and the off/on experiments;
  - two-qubit AllXY, Bell-state and cardinal tomography;
  - the conditional-oscillation and parity-check flux-dance sequences;
  - their phase codewords, calibration states and sweep points.

  A kernel is a name and a list of instructions (`prepz`, `measure`, gates,
  barriers, waits); a program is the list of kernels the builder adds.
- **The instruction-table generator** `generate_config` of
  `pycqed/measurement/openql_experiments/generate_QCC_cfg.py`. It builds the
  OpenQL configuration of a 17-qubit device:
  - hardware settings, resources, topology and gate decompositions;
  - a flat table of instructions, one per operation and operand.

Modules and files:

| module | file | what |
|---|---|---|
| Wrappers | wrappers.dfy | `Option` and `Result` |
| Numerals | numerals.dfy | digit strings in bases 2 to 16, `zfill`, `'{:0Nd}'` |
| General | general.dfy | `general.py` helpers; an insertion-ordered `Dict` |
| ArrayLayout | array_layout.dfy | `np.tile` and `np.repeat` layouts |
| FluxSelection | flux_selection.dfy | normalisation, the selection and the tolerance ladder |
| FluxClustering | flux_clustering.dfy | single-linkage flat clusters as connected components |
| FluxRanking | flux_ranking.dfy | `av_around`, `argmin`, weights and a stable `argsort` |
| FluxOptimals | flux_optimals.dfy | `get_optimal_pnts_indxs` |
| HeatmapAnalysis | heatmap_analysis.dfy | `interp_to_1D_arr`, name sets, `process_data` bookkeeping |
| OqlKernel | oql_kernel.dfy | kernels, per-qubit views, program loops |
| OqlOffOn | oql_off_on.dfy | `int2base`, `multi_qubit_off_on`, `single_qubit_off_on`, `targeted_off_on` |
| OqlTwoQubit | oql_two_qubit.dfy | `two_qubit_AllXY`, `two_qubit_tomo_bell`, `partial_tomography_cardinal` |
| OqlFlux | oql_flux.dfy | `conditional_oscillation_seq`, `parity_check_flux_dance` |
| QccCfg | qcc_cfg.dfy | `generate_config` and its key names |
| QccProps | qcc_props.dfy | properties of the generated configuration |

Design choices:

- Sweep values are `real`. The y normalisation constant 2π is the double
  the source computes (6.283185307179586). Distances are compared squared,
  as `av_around` does, so no square root appears.
- The phase-deviation function `multi_targets_phase_offset(target,
  2 * target)` is imported by the source and not shown, so it is a
  parameter `dev: real -> real`.
- `scipy.cluster.hierarchy.fclusterdata` with its default single linkage
  and the `distance` criterion is modelled by its contract:
  - labels `1..count`, all used;
  - two candidates within the threshold share a label;
  - two candidates share a label only when a chain of such links joins them.

  The model numbers clusters in order of first appearance.
- `np.argsort` is modelled as a stable sort over the order `np.sort` uses:
  `-inf`, then finite values, then `+inf`, then `nan`. Those values arise
  when the largest averaged leakage is 0.
- A Python exception is a `Failure` of a `Result`. Examples: the `KeyError`
  of `str_to_bool`, the `ValueError` of `qubits.index`, the `IndexError` of
  `np.where(...)[0][0]`, and the `ValueError` of `argmin` on an empty array.
- `generate_config` is imperative. The table is a `map<string, Entry>` that
  phase methods extend loop by loop. A ghost set records the instructions
  stored so far. Each key is the rendered name of a structured instruction
  (`InstrKey`), and a parser proves that every name reads back as its
  instruction.
- Qubits are integers. Qubit names `q0`..`q16` appear only where the source
  renders them into strings (table keys).

## Model

| member | source | states |
|---|---|---|
| General.StrToBool | pycqed/utilities/general.py:29-35 | true/t/1 in any letter case gives True; false/f/0 gives False; any other string is a KeyError carrying the message '<s> not a valid boolean string' (all three directions as if-and-only-if) |
| General.StrToBoolIgnoresCase | pycqed/utilities/general.py:32-34 | a string parses exactly as its lower-case form does |
| General.LowerIdempotent | pycqed/utilities/general.py:32 | lowering twice is lowering once |
| General.Lower | pycqed/utilities/general.py:32 | `s.lower()`: same length, each character lowered |
| General.BoolToIntStr | pycqed/utilities/general.py:38-42 | one character, '1' for True and '0' for False, which `str_to_bool` parses back to the same boolean |
| General.IntToBin | pycqed/utilities/general.py:45-57 | w characters (one for w = 0), all '0'/'1'; with lsb_last, read MSB-first, it denotes x mod 2^w; without lsb_last it is the reverse of the lsb_last string |
| General.BinStr | pycqed/utilities/general.py:52-53 | the zero-filled binary digits of (x + 2^w) % 2^w: width w, binary characters, value x mod 2^w |
| General.Shifted | pycqed/utilities/general.py:52 | (x + m) % m is in [0, m) and equals x mod m |
| General.BinaryDigits | pycqed/utilities/general.py:52-53 | the '0'-filled binary digits of v < 2^w have w characters, all binary, and denote v |
| General.IntToBinTwosComplement | pycqed/utilities/general.py:52-53 | for every x in [-2^(w-1), 2^(w-1)), the string read as a w-bit two's-complement number gives x back |
| General.IntToBinLsbFirst | pycqed/utilities/general.py:54-57 | with lsb_last false, the string read from its end denotes x mod 2^w |
| General.HexByte | pycqed/utilities/general.py:85 | `\xHH`: four characters, two hex digits whose value is the byte |
| General.HexByteIsFormat | pycqed/utilities/general.py:85 | the two digits are `'{:02x}'` of the byte: its minimal lower-case hex digits zero-filled to 2 |
| General.ToHexString | pycqed/utilities/general.py:81-85 | 3 + 4·n characters, starting with "b'" and ending with "'" |
| General.ToHexStringAt | pycqed/utilities/general.py:85 | byte i is printed at characters 2+4i..6+4i |
| General.HexStringRoundTrip | pycqed/utilities/general.py:81-85 | parsing the printed form gives back the bytes, in order |
| General.HexByteRoundTrip | pycqed/utilities/general.py:85 | one `\xHH` group parses back to its byte |
| General.HexBodyRoundTrip | pycqed/utilities/general.py:85 | the joined groups parse back to the byte sequence |
| General.Insert | pycqed/utilities/general.py:224 | dict assignment, as the comprehension performs it: a new key goes to the end of the order, an existing key keeps its place, the value is replaced |
| General.DictToOrderedTuples | pycqed/utilities/general.py:71-78 | None gives []; otherwise one pair per key in the dict's own iteration order, each with that key's value; nothing is sorted |
| General.OrderedTuplesRoundTrip | pycqed/utilities/general.py:71-78 | `dict()` of the tuples rebuilds the same dict: same keys, same order, same values |
| General.AddSuffixToDictKeys | pycqed/utilities/general.py:223-224 | the comprehension builds a well-formed dict with at most as many keys as the input |
| General.AddSuffixEntries | pycqed/utilities/general.py:224 | the new keys are exactly str(k)+suffix for the old keys k; where two keys print alike the later value wins, otherwise each keeps its value |
| General.AddSuffixInjective | pycqed/utilities/general.py:224 | when the keys print distinctly: one new key per old key, same order, each holding the old key's value |
| General.SuffixPrefixEntries | pycqed/utilities/general.py:224 | after the first n keys of the comprehension, the keys are exactly the renamed first n keys |
| General.SuffixPrefixValues | pycqed/utilities/general.py:224 | a renamed key that no later key collides with holds its original value |
| General.SuffixPrefixKeys | pycqed/utilities/general.py:224 | with distinctly printing keys, the renamed keys keep the original order |
| Numerals.Digits | pycqed/utilities/general.py:52 | the minimal digit string of v in base b, never empty (as `format(v, 'b')`, `'x'`, `str`) |
| Numerals.DigitsValue | pycqed/utilities/general.py:52 | the digit string denotes v |
| Numerals.DigitsAreDigits | pycqed/utilities/general.py:52 | every character written is a digit of the base |
| Numerals.DigitsInjective | pycqed/utilities/general.py:52 | distinct numbers have distinct digit strings |
| Numerals.DigitsFit | pycqed/utilities/general.py:52-53 | a value below b^w needs at most w digits |
| Numerals.ZFill | pycqed/utilities/general.py:52-53 | zero fill to width w: length max(|s|, w), s at the end, '0' before it |
| Numerals.ZFillValue | pycqed/utilities/general.py:52-53 | zero filling keeps the value a digit string denotes |
| Numerals.ValueBelowPow | pycqed/utilities/general.py:52-53 | an n-digit string denotes a value below b^n |
| Numerals.FormatPadded | pycqed/measurement/openql_experiments/generate_QCC_cfg.py:284 | `'{:02}'` of an integer: for v >= 0 digits denoting v, of width max(|str(v)|, w); for v < 0 a minus sign followed by digits denoting -v |
| FluxSelection.XNorm | pycqed/analysis_v2/fluxing_analysis.py:984 | one value per sample, each 1/360 of the sample's x |
| FluxSelection.YNorm | pycqed/analysis_v2/fluxing_analysis.py:985 | one value per sample, each the sample's y divided by 2π |
| FluxSelection.Max | pycqed/analysis_v2/fluxing_analysis.py:999 | `np.max`: an element of the array, at least every element |
| FluxSelection.Min | pycqed/analysis_v2/fluxing_analysis.py:999 | `np.min`: an element of the array, at most every element |
| FluxSelection.Select | pycqed/analysis_v2/fluxing_analysis.py:994-1000 | `np.where(sel)[0]`: increasing, and i is in it iff the phase deviation is <= phase_thr, the leakage <= L1_thr, and x[i], y[i] lie strictly between the minimum and the maximum of x and y |
| FluxSelection.SelectBelow | pycqed/analysis_v2/fluxing_analysis.py:994-1000 | the same, restricted to indices below n |
| FluxSelection.FirstStop | pycqed/analysis_v2/fluxing_analysis.py:989-1012 | the first rung from k on where something is selected or the tolerance equals the last one; no rung before it stops |
| FluxSelection.Ladder | pycqed/analysis_v2/fluxing_analysis.py:989-1012 | the ladder's outcome; an empty tolerance list or an empty sweep is a failure exactly in those cases |
| FluxSelection.SelectCandidates | pycqed/analysis_v2/fluxing_analysis.py:989-1012 | the loop over `tolerances`, multiplying both thresholds in place, computes the ladder's outcome |
| FluxSelection.StopRung | pycqed/analysis_v2/fluxing_analysis.py:989-1012 | the rung the loop ends on is a valid index into the tolerance list |
| FluxSelection.LadderExhausted | pycqed/analysis_v2/fluxing_analysis.py:1001-1005 | two empty arrays come back iff some rung whose tolerance equals the last one (by value) is reached with nothing selected on it or before it |
| FluxSelection.ExhaustedWitness | pycqed/analysis_v2/fluxing_analysis.py:1001-1005 | when nothing is found, the rung reached carries the last tolerance and nothing was selected up to it |
| FluxSelection.ExhaustedFrom | pycqed/analysis_v2/fluxing_analysis.py:1001-1005 | an earlier copy of the last tolerance, with nothing selected up to it, already ends the search empty |
| FluxSelection.LadderSingle | pycqed/analysis_v2/fluxing_analysis.py:1007-1008 | a single candidate i qualifies on the rung reached, is the only sample that does, and no earlier rung selected anything |
| FluxSelection.LadderSeveral | pycqed/analysis_v2/fluxing_analysis.py:1009-1012 | several candidates are exactly the selection of the rung reached: increasing, at least two, all off the sweep boundary; earlier rungs selected nothing |
| FluxSelection.RungCompounds | pycqed/analysis_v2/fluxing_analysis.py:989-991 | each rung's thresholds are the previous rung's times the next tolerance |
| FluxSelection.SelectMonotone | pycqed/analysis_v2/fluxing_analysis.py:995-996 | looser thresholds never lose a candidate |
| FluxSelection.EscalationMonotone | pycqed/analysis_v2/fluxing_analysis.py:989-1000 | with non-negative base thresholds and tolerances >= 1, each rung selects a superset of the previous rung's candidates |
| FluxClustering.SqDist | pycqed/analysis_v2/fluxing_analysis.py:1073 | the squared distance is non-negative |
| FluxClustering.SqDistSymmetric | pycqed/analysis_v2/fluxing_analysis.py:1073 | the squared distance is symmetric |
| FluxClustering.ConnectedRefl | pycqed/analysis_v2/fluxing_analysis.py:1017 | every candidate is joined to itself |
| FluxClustering.LinkedSymmetric | pycqed/analysis_v2/fluxing_analysis.py:1017 | being within the threshold is symmetric |
| FluxClustering.ConnectedSym | pycqed/analysis_v2/fluxing_analysis.py:1017 | being joined by a chain of links is symmetric |
| FluxClustering.ConnectedTrans | pycqed/analysis_v2/fluxing_analysis.py:1017 | being joined by a chain of links is transitive |
| FluxClustering.Merge | pycqed/analysis_v2/fluxing_analysis.py:1017 | relabels exactly the class of j with the root of i |
| FluxClustering.MergeConnected | pycqed/analysis_v2/fluxing_analysis.py:1017 | merging the classes of two linked candidates keeps every class connected |
| FluxClustering.Renumber | pycqed/analysis_v2/fluxing_analysis.py:1017 | labels 1..count, all used; two candidates share a label iff they shared a root |
| FluxClustering.FlatClusters | pycqed/analysis_v2/fluxing_analysis.py:1015-1017 | `fclusterdata(..., t, criterion="distance")`: labels 1..count, all used; linked candidates share a label; candidates sharing a label are joined by a chain of links |
| FluxClustering.Members | pycqed/analysis_v2/fluxing_analysis.py:1028 | `np.where(labels == c)`: increasing, and exactly the positions labelled c |
| FluxClustering.MembersBelow | pycqed/analysis_v2/fluxing_analysis.py:1028 | the same below n |
| FluxRanking.NeighboursBelowMembers | pycqed/analysis_v2/fluxing_analysis.py:1073-1074 | the neighbours are increasing, and j is one iff its squared distance to idx is at most radius² |
| FluxRanking.Gather | pycqed/analysis_v2/fluxing_analysis.py:1029-1075 | NumPy fancy indexing `z[indices]`, used for the candidate positions (1029), the reordered clusters and representatives (1066-1067) and the selected values (1075): one value per index, element k is z[indices[k]] |
| FluxRanking.AverageBounds | pycqed/analysis_v2/fluxing_analysis.py:1075 | `np.average` lies between the minimum and the maximum |
| FluxRanking.AverageWithin | pycqed/analysis_v2/fluxing_analysis.py:1075 | values between lo and hi average to something between lo and hi |
| FluxRanking.NeighbourhoodHasCentre | pycqed/analysis_v2/fluxing_analysis.py:1073-1074 | idx is always its own neighbour |
| FluxRanking.AvAroundNeighbourhood | pycqed/analysis_v2/fluxing_analysis.py:1072-1075 | `av_around`: the neighbourhood contains idx, is increasing, and is exactly the samples within the radius; the average is over it and lies between its least and greatest z |
| FluxRanking.ArgMin | pycqed/analysis_v2/fluxing_analysis.py:1031 | `np.argmin`: a position holding the least value, strictly below every earlier value |
| FluxRanking.WeightLeTotal | pycqed/analysis_v2/fluxing_analysis.py:1066 | the sort order of weights is total |
| FluxRanking.WeightLeTrans | pycqed/analysis_v2/fluxing_analysis.py:1066 | the sort order of weights is transitive |
| FluxRanking.ClusterWeight | pycqed/analysis_v2/fluxing_analysis.py:1053 | `av / max / size`: finite with weight·max·size = av when max ≠ 0; for max = 0 it is nan iff av = 0, -inf iff av < 0, +inf iff av > 0 |
| FluxRanking.Weights | pycqed/analysis_v2/fluxing_analysis.py:1053 | one weight per cluster, each that cluster's weight against the largest averaged leakage |
| FluxRanking.WeightOrder | pycqed/analysis_v2/fluxing_analysis.py:1053 | with a positive maximum, a larger cluster with the same leakage weighs no more, and a cluster of the same size with lower leakage weighs no more |
| FluxRanking.InsertAfterEqual | pycqed/analysis_v2/fluxing_analysis.py:1066-1067 | inserting a position keeps the order sorted, stable and without repeats, and adds exactly that position |
| FluxRanking.ArgSortBelow | pycqed/analysis_v2/fluxing_analysis.py:1066-1067 | the positions below n exactly once each, sorted by key and stable |
| FluxRanking.ArgSort | pycqed/analysis_v2/fluxing_analysis.py:1066-1067 | `np.argsort`: a permutation of the positions under which the keys never decrease, equal keys keeping their order |
| FluxOptimals.Candidates | pycqed/analysis_v2/fluxing_analysis.py:1010-1015 | `np.transpose([x_filt, y_filt])`: the normalised point of each selected sample |
| FluxOptimals.LeakageAround | pycqed/analysis_v2/fluxing_analysis.py:1030 | one neighbourhood-averaged leakage per cluster member |
| FluxOptimals.ClusteringThreshold | pycqed/analysis_v2/fluxing_analysis.py:1016 | the clustering distance is clustering_thr / 360 |
| FluxOptimals.RepresentCluster | pycqed/analysis_v2/fluxing_analysis.py:1028-1044 | for a used label: the cluster as sample indices (non-empty), its first member of least local leakage, and that leakage |
| FluxOptimals.Representatives | pycqed/analysis_v2/fluxing_analysis.py:1026-1044 | the loop over cluster ids: for every id, a non-empty cluster, its representative and its leakage |
| FluxOptimals.RepresentsAppend | pycqed/analysis_v2/fluxing_analysis.py:1026-1044 | one more turn of the loop keeps every cluster represented |
| FluxOptimals.Sizes | pycqed/analysis_v2/fluxing_analysis.py:1053 | `map(np.size, clusters_by_indx)`: one size per cluster |
| FluxOptimals.RepLeakages | pycqed/analysis_v2/fluxing_analysis.py:1044 | the representatives' local leakages, in output order |
| FluxOptimals.GetOptimalPntsIndxs | pycqed/analysis_v2/fluxing_analysis.py:952-1069 | an empty ladder or sweep fails; nothing found gives ([], []); one candidate i gives ([i], [[i]]); several give clusters that partition the candidates, follow the links, carry their best representatives, and come out ranked by weight |
| FluxOptimals.ExtractSeveral | pycqed/analysis_v2/fluxing_analysis.py:1010-1069 | the branch for several candidates establishes all of that |
| FluxOptimals.ClusterAndRank | pycqed/analysis_v2/fluxing_analysis.py:1014-1067 | clustering, representatives and ranking: a partition following the links, best representatives, ranked by weight |
| FluxOptimals.SeveralExtracted | pycqed/analysis_v2/fluxing_analysis.py:1014-1067 | what the clustering labels and the representative loop give, reordered by the argsort, is a ranked partition with best representatives |
| FluxOptimals.PermutedExtracted | pycqed/analysis_v2/fluxing_analysis.py:1053-1067 | reordering clusters and representatives by the argsort of the weights keeps the partition, the links and the best representatives, and ranks them by weight |
| FluxOptimals.ClustersPartition | pycqed/analysis_v2/fluxing_analysis.py:1026-1036 | the clusters are non-empty increasing lists of candidates, and every candidate is in exactly one |
| FluxOptimals.ClustersFollowLinks | pycqed/analysis_v2/fluxing_analysis.py:1017-1036 | a cluster holds every candidate linked to one of its members, and any two members are joined by a chain of links |
| FluxOptimals.SameCluster | pycqed/analysis_v2/fluxing_analysis.py:1028-1029 | two candidates lie in cluster c iff both carry its label |
| FluxOptimals.BestInCluster | pycqed/analysis_v2/fluxing_analysis.py:1030-1033 | the representative is a member of least local leakage, strictly below every earlier member |
| FluxOptimals.FirstMinimum | pycqed/analysis_v2/fluxing_analysis.py:1031 | the first minimum over increasing positions is strictly below every earlier position |
| FluxOptimals.RepresentativesBest | pycqed/analysis_v2/fluxing_analysis.py:1030-1034 | every representative is the best member of its cluster |
| FluxOptimals.PermutedPartition | pycqed/analysis_v2/fluxing_analysis.py:1067 | reordering the clusters keeps them a partition of the candidates |
| FluxOptimals.PermutedFollowsLinks | pycqed/analysis_v2/fluxing_analysis.py:1067 | reordering keeps clusters closed under links and chain-connected |
| FluxOptimals.PermutedRepresentsBest | pycqed/analysis_v2/fluxing_analysis.py:1066-1067 | representatives and clusters, reordered by the same permutation, stay paired |
| FluxOptimals.PermutedMax | pycqed/analysis_v2/fluxing_analysis.py:1053 | reordering the leakages keeps their maximum |
| FluxOptimals.PermutedWeights | pycqed/analysis_v2/fluxing_analysis.py:1053 | permuting the clusters permutes their weights the same way |
| FluxOptimals.PermutedRanked | pycqed/analysis_v2/fluxing_analysis.py:1053-1067 | after the argsort the clusters come out in non-decreasing order of weight |
| ArrayLayout.TiledAt | pycqed/analysis_v2/fluxing_analysis.py:1100 | `np.ravel(np.repeat([x], n, axis=0))`: n·|x| elements, element k is x[k mod |x|] |
| ArrayLayout.StretchedAt | pycqed/analysis_v2/fluxing_analysis.py:1101 | `np.ravel(np.repeat([y], m, axis=1))`: |y|·m elements, element k is y[k / m] |
| ArrayLayout.StretchedIndex | pycqed/analysis_v2/fluxing_analysis.py:1101 | item b of block a is y[a] |
| HeatmapAnalysis.StridedAt | pycqed/analysis_v2/fluxing_analysis.py:1087 | `v[::step]` keeps ceil(|v|/step) elements, element k being v[k·step] |
| HeatmapAnalysis.CeilDiv | pycqed/analysis_v2/fluxing_analysis.py:1086 | `ceil(size / n)` for either sign of n, as bounds on the quotient |
| HeatmapAnalysis.SliceStep | pycqed/analysis_v2/fluxing_analysis.py:1085-1086 | a zero slice_above_len fails (division by zero); an empty axis with a positive length gives step 0 and fails; otherwise a positive step |
| HeatmapAnalysis.ThinOut | pycqed/analysis_v2/fluxing_analysis.py:1084-1091 | thinning fails exactly when its step does |
| HeatmapAnalysis.ThinOutMatrix | pycqed/analysis_v2/fluxing_analysis.py:1092-1097 | thinning a heatmap fails exactly when the step of either axis does |
| HeatmapAnalysis.ThinAll | pycqed/analysis_v2/fluxing_analysis.py:1083-1097 | a successful thinning keeps exactly which of x, y and z are given |
| HeatmapAnalysis.ThinOutAtMost | pycqed/analysis_v2/fluxing_analysis.py:1084-1091 | with a positive length, thinning keeps between 1 and slice_above_len elements, element k being v[k·step] |
| HeatmapAnalysis.RavelAt | pycqed/analysis_v2/fluxing_analysis.py:1102 | `np.ravel(z)` of a rectangular heatmap lists row r, column c at r·width + c |
| HeatmapAnalysis.GridCoordinates | pycqed/analysis_v2/fluxing_analysis.py:1100-1101 | the flattened grid has |x|·|y| points, point k being (x[k mod |x|], y[k / |x|]) |
| HeatmapAnalysis.GridRavel | pycqed/analysis_v2/fluxing_analysis.py:1102 | over a heatmap of the grid, the flattened heatmap has |x|·|y| values, value k being z[k / |x|][k mod |x|] |
| HeatmapAnalysis.Layout | pycqed/analysis_v2/fluxing_analysis.py:1099-1112 | the four branches: x, y and z give a grid and values; z alone gives values; x and y give a grid; otherwise nothing |
| HeatmapAnalysis.InterpTo1DArr | pycqed/analysis_v2/fluxing_analysis.py:1078-1112 | fails exactly when thinning fails; always succeeds without slice_above_len; otherwise the branch taken depends only on which arrays are given |
| HeatmapAnalysis.InterpAligned | pycqed/analysis_v2/fluxing_analysis.py:1099-1102 | for a heatmap over the grid, entry k of the flattened arrays is (x[k mod |x|], y[k / |x|], z[k / |x|][k mod |x|]): every grid point once, the heatmap aligned with it |
| HeatmapAnalysis.InterpTo1DArrAsWritten | pycqed/analysis_v2/fluxing_analysis.py:1099-1103 | as written, with x, y and z given the third result is the 2-D heatmap |
| HeatmapAnalysis.InterpAsWrittenMisaligned | pycqed/analysis_v2/fluxing_analysis.py:1099-1103 | as written, for two or more x values the third result has one entry per row, not one per grid point |
| HeatmapAnalysis.InterpAsWrittenExample | pycqed/analysis_v2/fluxing_analysis.py:1099-1103 | a 2 by 2 heatmap comes back as two rows next to four grid points |
| HeatmapAnalysis.Underscored | pycqed/analysis_v2/fluxing_analysis.py:311 | `name.replace(' ', '_')`: same length, no spaces left, each space becomes '_' and every other character stays |
| HeatmapAnalysis.UnderscoredIdempotent | pycqed/analysis_v2/fluxing_analysis.py:311 | replacing twice is replacing once |
| HeatmapAnalysis.UnderscoredFixed | pycqed/analysis_v2/fluxing_analysis.py:311 | a name is unchanged iff it has no space |
| HeatmapAnalysis.WithUnderscoresSpec | pycqed/analysis_v2/fluxing_analysis.py:306-312 | the extended set holds the names, their underscored forms, and nothing else |
| HeatmapAnalysis.WithUnderscoresClosed | pycqed/analysis_v2/fluxing_analysis.py:306-312 | the extended set is closed under replacing spaces |
| HeatmapAnalysis.FirstIn | pycqed/analysis_v2/fluxing_analysis.py:568-569 | `np.where(...)[0][0]`: the first value name in the set; none (IndexError) iff no name is in it |
| HeatmapAnalysis.Lookup | pycqed/analysis_v2/fluxing_analysis.py:568-570 | the measured row of the first name in the set; none iff no name is in it |
| HeatmapAnalysis.MeasuredColumns | pycqed/analysis_v2/fluxing_analysis.py:567-589 | a missing cost function fails; otherwise the cost row, and the conditional-phase and leakage rows when measured, each the row of the first matching name |
| HeatmapAnalysis.SingleMinimum | pycqed/analysis_v2/fluxing_analysis.py:616-618 | `[argmin]` and `[[argmin]]`: the first least cost; an empty cost array fails |
| HeatmapAnalysis.OptimalPoints | pycqed/analysis_v2/fluxing_analysis.py:616-627 | without find_local_optimals, the single minimum; with it, a missing phase or leakage fails, otherwise the extractor's result with its default thresholds |
| HeatmapAnalysis.FlattenBlocks | pycqed/analysis_v2/fluxing_analysis.py:705-712 | cluster l occupies one contiguous block of the flattened arrays, holding its indices in order, coloured l |
| HeatmapAnalysis.Flatten | pycqed/analysis_v2/fluxing_analysis.py:705-712 | one colour per flattened member, each member lying in the cluster its colour names, colours non-decreasing |
| HeatmapAnalysis.Coordinates | pycqed/analysis_v2/fluxing_analysis.py:706-709 | the coordinate of each flattened member |
| HeatmapAnalysis.FlattenStep | pycqed/analysis_v2/fluxing_analysis.py:705-712 | one more cluster appends its members' coordinates and its colour |
| HeatmapAnalysis.FlattenClusters | pycqed/analysis_v2/fluxing_analysis.py:701-712 | the concatenation loop yields the members' x and y coordinates and per-member colours |
| HeatmapAnalysis.OptimalCoordinates | pycqed/analysis_v2/fluxing_analysis.py:720-727 | `x_arr[optimal_idxs]`, `y_arr[optimal_idxs]` and one `{xlabel: x, ylabel: y}` per point; equal labels keep only y |
| OqlKernel.OnAppend | pycqed/measurement/openql_experiments/multi_qubit_oql.py:84-124 | what a qubit sees of two appended instruction lists is what it sees of each, in order |
| OqlKernel.OnSkip | pycqed/measurement/openql_experiments/multi_qubit_oql.py:84-124 | an instruction that does not address q alone is invisible to q |
| OqlKernel.OnJoin | pycqed/measurement/openql_experiments/multi_qubit_oql.py:84-124 | a qubit sees, of a body made of segments, what it sees of each segment |
| OqlKernel.OnPrepzAll | pycqed/measurement/openql_experiments/multi_qubit_oql.py:86-87 | among distinct qubits, `for q in qubits: k.prepz(q)` shows qubit q one prepz if it is listed and nothing otherwise |
| OqlKernel.OnMeasureAll | pycqed/measurement/openql_experiments/multi_qubit_oql.py:118-119 | the same for the measurement loop |
| OqlKernel.OnGateAll | pycqed/measurement/openql_experiments/multi_qubit_oql.py:86-87 | the same for a loop applying one gate to every qubit |
| OqlKernel.OnAll | pycqed/measurement/openql_experiments/multi_qubit_oql.py:86-120 | each listed distinct qubit sees exactly one preparation and one measurement |
| OqlKernel.AddKernels | pycqed/measurement/openql_experiments/multi_qubit_oql.py:82-121 | `for x in xs: p.add_kernel(mk(x))`: one kernel per item, in order |
| OqlKernel.GridAt | pycqed/measurement/openql_experiments/multi_qubit_oql.py:1596-1599 | in two nested loops, the kernel of outer item i and inner item j is the (i·|inner| + j)-th |
| OqlKernel.Grid | pycqed/measurement/openql_experiments/multi_qubit_oql.py:1596-1735 | |outer|·|inner| kernels |
| OqlKernel.AddGrid | pycqed/measurement/openql_experiments/multi_qubit_oql.py:1596-1735 | two nested loops adding one kernel per pair, outer items outermost |
| OqlOffOn.Int2BaseValue | pycqed/measurement/openql_experiments/multi_qubit_oql.py:77-78 | `int2base(i, base, fixed_length=w)` for i < base^w: exactly w digits of the base, denoting i |
| OqlOffOn.ValueInjective | pycqed/measurement/openql_experiments/multi_qubit_oql.py:77-78 | digit strings of one length are determined by their value |
| OqlOffOn.OffOnCombinations | pycqed/measurement/openql_experiments/multi_qubit_oql.py:72-78 | base^n combinations, base 3 with the second excited state and 2 otherwise |
| OqlOffOn.OffOnCombinationAt | pycqed/measurement/openql_experiments/multi_qubit_oql.py:77-78 | combination i is the n-digit base-b string denoting i |
| OqlOffOn.OffOnCombinationsDistinct | pycqed/measurement/openql_experiments/multi_qubit_oql.py:77-78 | the combinations are pairwise distinct |
| OqlOffOn.OffOnCombinationsComplete | pycqed/measurement/openql_experiments/multi_qubit_oql.py:77-78 | every n-digit string of the base is a combination |
| OqlOffOn.OffOnNoQubits | pycqed/measurement/openql_experiments/multi_qubit_oql.py:77-78 | with no qubits there is one combination, "0" |
| OqlOffOn.PrepareAllOn | pycqed/measurement/openql_experiments/multi_qubit_oql.py:107-114 | each qubit gets exactly the gates of its own digit: '0' i, '1' rx180, '2' rx180 then rx12 |
| OqlOffOn.PrepareNone | pycqed/measurement/openql_experiments/multi_qubit_oql.py:107-114 | a qubit outside the list gets none of the preparation gates |
| OqlOffOn.PrepareStateOn | pycqed/measurement/openql_experiments/multi_qubit_oql.py:107-114 | the gates of one digit address only their own qubit |
| OqlOffOn.PrepareState | pycqed/measurement/openql_experiments/multi_qubit_oql.py:107-114 | the gates of one digit address only their own qubit, and they open with rx180 exactly when the digit is '1', or '2' in the builders that accept it |
| OqlOffOn.FluxDances | pycqed/measurement/openql_experiments/multi_qubit_oql.py:97-104 | nr_flux_dance rounds of four codewords and a barrier |
| OqlOffOn.OffOnKernel | pycqed/measurement/openql_experiments/multi_qubit_oql.py:82-121 | the kernel is named `Prep_` followed by its combination, opens with prepz on every qubit and closes with a measurement of every qubit and a barrier |
| OqlOffOn.OffOnKernels | pycqed/measurement/openql_experiments/multi_qubit_oql.py:82-121 | one `Prep_<comb>` kernel per combination, in order |
| OqlOffOn.MultiQubitOffOn | pycqed/measurement/openql_experiments/multi_qubit_oql.py:46-125 | base^n kernels, kernel i built from combination i |
| OqlOffOn.OnMeasured | pycqed/measurement/openql_experiments/multi_qubit_oql.py:118-119 | the closing block measures each qubit once |
| OqlOffOn.OffOnKernelQubit | pycqed/measurement/openql_experiments/multi_qubit_oql.py:82-121 | without flux dances a qubit sees prepz, a measurement if `initialize`, the gates of its digit, and a final measurement |
| OqlOffOn.OffOnNamesDistinct | pycqed/measurement/openql_experiments/multi_qubit_oql.py:83 | the kernels of `multi_qubit_off_on` have pairwise distinct names |
| OqlOffOn.IndexOf | pycqed/measurement/openql_experiments/multi_qubit_oql.py:136 | `qubits.index(q)`: the first position of q; none (ValueError) iff q is absent |
| OqlOffOn.SingleOffOnCombinations | pycqed/measurement/openql_experiments/multi_qubit_oql.py:134-138 | two combinations of n characters: all '0', and '1' at the target's position only |
| OqlOffOn.SingleOffOnKernel | pycqed/measurement/openql_experiments/multi_qubit_oql.py:143-170 | the kernel is named `Prep_` followed by its combination, opens with prepz on every qubit and closes with a measurement of every qubit and a barrier |
| OqlOffOn.SingleQubitOffOn | pycqed/measurement/openql_experiments/multi_qubit_oql.py:128-174 | ValueError iff the target is not a listed qubit; otherwise the two kernels of those combinations |
| OqlOffOn.SingleOffOnPulses | pycqed/measurement/openql_experiments/multi_qubit_oql.py:156-163 | in the first kernel no qubit is pulsed; in the second only the target gets rx180 |
| OqlOffOn.TargetState | pycqed/measurement/openql_experiments/multi_qubit_oql.py:206-211 | '1' iff "on" occurs in `pulse_comb.lower()`; else '0' iff "off" occurs; else ValueError |
| OqlOffOn.InsertAt | pycqed/measurement/openql_experiments/multi_qubit_oql.py:205-209 | `list.insert` lengthens the string by one |
| OqlOffOn.RemoveInsert | pycqed/measurement/openql_experiments/multi_qubit_oql.py:205-209 | inserting c at idx puts c there, and removing it gives the string back |
| OqlOffOn.TargetedCombinations | pycqed/measurement/openql_experiments/multi_qubit_oql.py:203-212 | 2^(n-1) combinations |
| OqlOffOn.TargetedCombinationAt | pycqed/measurement/openql_experiments/multi_qubit_oql.py:203-212 | for n >= 2, combination i has n characters, the target state at the target's position, and the others spell i in n-1 binary digits |
| OqlOffOn.TargetedCombinationsDistinct | pycqed/measurement/openql_experiments/multi_qubit_oql.py:203-212 | the combinations are pairwise distinct |
| OqlOffOn.TargetedSingleQubit | pycqed/measurement/openql_experiments/multi_qubit_oql.py:203 | with one qubit, `'{:00b}'.format(0)` is "0", so the one combination has two characters |
| OqlOffOn.TargetedNamesDistinct | pycqed/measurement/openql_experiments/multi_qubit_oql.py:217 | for two or more qubits the kernel names are pairwise distinct |
| OqlOffOn.TargetedKernel | pycqed/measurement/openql_experiments/multi_qubit_oql.py:216-236 | the kernel is named `Prep_` followed by its combination, opens with prepz on every qubit and closes with a measurement of every qubit and a barrier |
| OqlOffOn.TargetedKernels | pycqed/measurement/openql_experiments/multi_qubit_oql.py:216-236 | one kernel per combination, in order |
| OqlOffOn.InsertedEverywhere | pycqed/measurement/openql_experiments/multi_qubit_oql.py:203-212 | rewriting each (n-1)-bit string in place gives the targeted combinations |
| OqlOffOn.TargetedOffOn | pycqed/measurement/openql_experiments/multi_qubit_oql.py:177-240 | ValueError iff the target is absent or the pulse combination names neither on nor off; otherwise one kernel per targeted combination |
| OqlTwoQubit.ParseSequenceType | pycqed/measurement/openql_experiments/multi_qubit_oql.py:424-467 | none iff the sequence type is not one of the four listed |
| OqlTwoQubit.PairsQ0 | pycqed/measurement/openql_experiments/multi_qubit_oql.py:408 | `np.repeat(..., repetitions, axis=0)`: 21·repetitions pairs |
| OqlTwoQubit.PairsQ1 | pycqed/measurement/openql_experiments/multi_qubit_oql.py:410-415 | `np.tile` or the replacement pair: 21·repetitions pairs |
| OqlTwoQubit.AllXYPairing | pycqed/measurement/openql_experiments/multi_qubit_oql.py:408-419 | kernel k plays pair k / repetitions on q0 and, unless replaced, pair k mod 21 on q1; when replaced, [g, g] throughout |
| OqlTwoQubit.AllXYGates | pycqed/measurement/openql_experiments/multi_qubit_oql.py:424-463 | every branch emits single-qubit gates on q0 or q1 only, two per slot of the documented order (eight, or four for simultaneous) |
| OqlTwoQubit.AllXYKernel | pycqed/measurement/openql_experiments/multi_qubit_oql.py:419-470 | the kernel prepares q0 and q1, holds only gates, two per slot of the documented order, and measures q0 and q1 |
| OqlTwoQubit.AllXYKernelName | pycqed/measurement/openql_experiments/multi_qubit_oql.py:419-420 | kernel i is named `AllXY_` followed by decimal digits whose value is i + 1 |
| OqlTwoQubit.AllXYLanes | pycqed/measurement/openql_experiments/multi_qubit_oql.py:421-469 | in every branch each qubit gets its two pulses in order, between prepz and measure |
| OqlTwoQubit.AllXYLaneQ0 | pycqed/measurement/openql_experiments/multi_qubit_oql.py:421-469 | q0's own pulses come in the order documented for the sequence type |
| OqlTwoQubit.AllXYLaneQ1 | pycqed/measurement/openql_experiments/multi_qubit_oql.py:421-469 | q1's own pulses come in the order documented for the sequence type |
| OqlTwoQubit.TwoQubitAllXY | pycqed/measurement/openql_experiments/multi_qubit_oql.py:371-473 | ValueError iff the type is unknown and at least one kernel is built; otherwise 21·repetitions kernels, kernel i from the i-th pulse pairs |
| OqlTwoQubit.TomoGates | pycqed/measurement/openql_experiments/multi_qubit_oql.py:1023 | six tomography pre-rotations |
| OqlTwoQubit.BellPreparation | pycqed/measurement/openql_experiments/multi_qubit_oql.py:1026-1035 | defined iff the state is 0 or its last digit (Python's `% 10`) is 1 to 3, else ValueError; q0 gets ry90 iff 0 or digit 2; q1 gets ry90 iff 0 or digit 1 |
| OqlTwoQubit.BellIndexAliases | pycqed/measurement/openql_experiments/multi_qubit_oql.py:1026-1035 | 10 is undefined but 0 is; 11 and -9 prepare like 1 |
| OqlTwoQubit.BellKernelLanes | pycqed/measurement/openql_experiments/multi_qubit_oql.py:1047-1070 | q0 sees prepz, its preparation, the `p_q1` rotation, measure; q1 sees prepz, its preparation, rym90, the `p_q0` rotation, measure |
| OqlTwoQubit.BellKernel | pycqed/measurement/openql_experiments/multi_qubit_oql.py:1047-1070 | twelve instructions, thirteen with the wait; opens with prepz on q0 and q1, holds the flux codeword on the pair, holds the wait on the pair iff one is given, and ends measuring q0 and q1 |
| OqlTwoQubit.BellRow | pycqed/measurement/openql_experiments/multi_qubit_oql.py:1046-1074 | the inner loop: six kernels, one per `p_q0` |
| OqlTwoQubit.TwoQubitTomoBell | pycqed/measurement/openql_experiments/multi_qubit_oql.py:1006-1078 | ValueError iff the Bell state is undefined; otherwise 36 kernels, kernel 6a+b with `p_q1` = gate a and `p_q0` = gate b |
| OqlTwoQubit.CardinalDigits | pycqed/measurement/openql_experiments/multi_qubit_oql.py:2763-2767 | on [0, 35] the two indices are the base-6 digits: c = idx_p0 + 6·idx_p1, each below 6, and distinct cardinals give distinct pairs |
| OqlTwoQubit.CardinalKernel | pycqed/measurement/openql_experiments/multi_qubit_oql.py:2773-2799 | q0 is prepared with the cardinal gate of the low base-6 digit and q1 with that of the high digit, then pair i puts its first gate on q0 and its second on q1, and both are measured |
| OqlTwoQubit.TomoPairs | pycqed/measurement/openql_experiments/multi_qubit_oql.py:2770-2771 | eight tomography pairs |
| OqlTwoQubit.TomoIndicesDistinct | pycqed/measurement/openql_experiments/multi_qubit_oql.py:2773-2781 | the eight kernels carry distinct index pairs in their names |
| OqlTwoQubit.PartialTomographyCardinal | pycqed/measurement/openql_experiments/multi_qubit_oql.py:2738-2803 | NotImplementedError without precompiled flux; ValueError outside [0, 35]; otherwise the eight kernels in order |
| OqlFlux.PhaseCodewordValue | pycqed/measurement/openql_experiments/multi_qubit_oql.py:1704-1711 | `'cw_{:02}'.format(angle // 20 + 9)` spells the index angle // 20 + 9 after `cw_` |
| OqlFlux.PhaseCodeword | pycqed/measurement/openql_experiments/multi_qubit_oql.py:1704-1711 | the phase codeword is `cw_` followed by at least two characters |
| OqlFlux.PhiGate | pycqed/measurement/openql_experiments/multi_qubit_oql.py:1704-1711 | ry90 iff the angle is 90, rx90 iff it is 0, and a `cw_` codeword for every other angle |
| OqlFlux.PhaseCodewordInjective | pycqed/measurement/openql_experiments/multi_qubit_oql.py:1704-1711 | angles in different 20-degree steps get different codewords |
| OqlFlux.PhiGateInjective | pycqed/measurement/openql_experiments/multi_qubit_oql.py:1704-1711 | on multiples of 20 in [0, 360) the codewords are 10..26 and distinct angles get distinct recovery gates (ry90 for 90, rx90 for 0) |
| OqlFlux.ParseParked | pycqed/measurement/openql_experiments/multi_qubit_oql.py:1591 | none iff `parked_qubit_seq` is not ground, ramsey or excited |
| OqlFlux.OnPulses | pycqed/measurement/openql_experiments/multi_qubit_oql.py:1640-1643 | among distinct qubits, a qubit sees its own pulse once, if listed |
| OqlFlux.ParkGates | pycqed/measurement/openql_experiments/multi_qubit_oql.py:1671-1682 | TypeError iff a cz parking codeword lacks q2 or q3, or a park codeword lacks q2; ValueError iff the codeword is neither cz nor park, or is park with both q2 and q3 present; no gates iff no codeword |
| OqlFlux.DistinctParts | pycqed/measurement/openql_experiments/multi_qubit_oql.py:1613-1631 | with distinct qubits, the control, Ramsey and parked lists are distinct and keep q0 and q1 apart |
| OqlFlux.ParkQuiet | pycqed/measurement/openql_experiments/multi_qubit_oql.py:1671-1675 | the parking gates never address q0 or q1 alone |
| OqlFlux.BeforeOn | pycqed/measurement/openql_experiments/multi_qubit_oql.py:1618-1643 | of the pulses before the flux part a qubit sees the parked, excitation and Ramsey pulses, in that order |
| OqlFlux.AfterOn | pycqed/measurement/openql_experiments/multi_qubit_oql.py:1696-1721 | of the pulses after it, the excitation, recovery and parked pulses, in that order |
| OqlFlux.FluxOn | pycqed/measurement/openql_experiments/multi_qubit_oql.py:1653-1689 | of the flux part, the cz_repetitions repetitions |
| OqlFlux.ParkedPulsesOn | pycqed/measurement/openql_experiments/multi_qubit_oql.py:1618-1721 | a qubit other than the parked ones sees no parked pulse |
| OqlFlux.FluxQuiet | pycqed/measurement/openql_experiments/multi_qubit_oql.py:1653-1689 | no repetition of the flux part addresses a spared qubit alone |
| OqlFlux.PrepMeasureOn | pycqed/measurement/openql_experiments/multi_qubit_oql.py:1600-1733 | each distinct qubit is prepared once and measured once |
| OqlFlux.ExcitationPulsesOn | pycqed/measurement/openql_experiments/multi_qubit_oql.py:1633-1638 | a control qubit gets its pi pulse in the excitation case only |
| OqlFlux.RamseyPulsesOn | pycqed/measurement/openql_experiments/multi_qubit_oql.py:1640-1716 | q0 gets rx90 before the flux part and the recovery gate after it, nothing else |
| OqlFlux.ControlPulsesOn | pycqed/measurement/openql_experiments/multi_qubit_oql.py:1633-1700 | q1 gets a pi pulse before and after the flux part in the excitation case, nothing else |
| OqlFlux.CondOscRamseyLane | pycqed/measurement/openql_experiments/multi_qubit_oql.py:1599-1735 | the whole kernel as q0 sees it: prepz, rx90, the recovery gate, measure |
| OqlFlux.CondOscControlLane | pycqed/measurement/openql_experiments/multi_qubit_oql.py:1599-1735 | the whole kernel as q1 sees it: prepz, two pi pulses in the excitation case, measure |
| OqlFlux.FluxGates | pycqed/measurement/openql_experiments/multi_qubit_oql.py:1655-1665 | a dance codeword goes alone on qubit 0, a parity-check codeword becomes the four refocus codewords, and any other codeword is one gate on q0 and q1 |
| OqlFlux.CondOscBody | pycqed/measurement/openql_experiments/multi_qubit_oql.py:1599-1735 | the body opens by preparing every qubit and closes by measuring every qubit, then a barrier |
| OqlFlux.CondOscKernel | pycqed/measurement/openql_experiments/multi_qubit_oql.py:1596-1736 | the kernel is named after its case, an underscore and its angle, and opens by preparing every qubit |
| OqlFlux.CondOscCalStates | pycqed/measurement/openql_experiments/multi_qubit_oql.py:1737-1741 | four calibration states |
| OqlFlux.CondOscSweepAt | pycqed/measurement/openql_experiments/multi_qubit_oql.py:1758-1759 | the kernel of angle a and case b has that angle as its sweep point |
| OqlFlux.CondOscSweepCal | pycqed/measurement/openql_experiments/multi_qubit_oql.py:1753-1759 | the calibration points follow the kernels as 361, 362, ... |
| OqlFlux.ConditionalOscillationSeq | pycqed/measurement/openql_experiments/multi_qubit_oql.py:1546-1761 | AssertionError for an unknown parked sequence; when a flux pulse is emitted, the TypeError or ValueError of the parking gates; otherwise one kernel per angle and case, angles outermost, and the sweep points |
| OqlFlux.Flips | pycqed/measurement/openql_experiments/multi_qubit_oql.py:2016-2018 | IndexError iff some '1' lies beyond the last control qubit; otherwise exactly the pulses on the controls whose character is '1' |
| OqlFlux.FlipsOn | pycqed/measurement/openql_experiments/multi_qubit_oql.py:2016-2018 | among distinct controls, control j gets one pulse iff `case[j] == '1'` |
| OqlFlux.Dance | pycqed/measurement/openql_experiments/multi_qubit_oql.py:2038-2039 | one flux-dance gate per codeword |
| OqlFlux.ParityCalStatesAsWritten | pycqed/measurement/openql_experiments/multi_qubit_oql.py:2085-2091 | as written: 2^n states |
| OqlFlux.ParityCalStatesAsWrittenShape | pycqed/measurement/openql_experiments/multi_qubit_oql.py:2085-2091 | as written, state i spells i in binary on n characters ("0" when n = 0), followed, when a qubit is parked, by a single character: '0' in the first half of the states and '1' in the second |
| OqlFlux.ParityCalStatesShort | pycqed/measurement/openql_experiments/multi_qubit_oql.py:2085-2094 | as written, with two parked qubits each state is one character short of the qubits it prepares |
| OqlFlux.ParityCalStates | pycqed/measurement/openql_experiments/multi_qubit_oql.py:2085-2091 | corrected: 2^n states |
| OqlFlux.ParityCalStatesAgree | pycqed/measurement/openql_experiments/multi_qubit_oql.py:2085-2091 | with at most one parked qubit the states as written are the corrected ones |
| OqlFlux.ParityCalStatesShape | pycqed/measurement/openql_experiments/multi_qubit_oql.py:2085-2091 | corrected state i has one character per measured qubit: the first n spell i in binary, every parked one is '0' in the first half and '1' in the second |
| OqlFlux.ParitySweepAt | pycqed/measurement/openql_experiments/multi_qubit_oql.py:2108-2109 | the kernel of case c and angle a has sweep point c |
| OqlFlux.ParitySweepCal | pycqed/measurement/openql_experiments/multi_qubit_oql.py:2103-2109 | the calibration points continue the case numbering |
| OqlFlux.ParityBody | pycqed/measurement/openql_experiments/multi_qubit_oql.py:1998-2081 | the body opens by preparing targets, controls and parked qubits and closes by measuring them in that order, then a barrier |
| OqlFlux.ParityKernel | pycqed/measurement/openql_experiments/multi_qubit_oql.py:1995-2083 | the kernel is named after its case, an underscore and its angle, and opens by preparing targets, controls and parked qubits |
| OqlFlux.ParityCheckFluxDance | pycqed/measurement/openql_experiments/multi_qubit_oql.py:1948-2111 | IndexError iff some case flips a missing control and at least one angle is given; otherwise cases outermost, angles inside, the sweep points and the calibration states as the source writes them |
| QccCfg.QubitName | pycqed/measurement/openql_experiments/generate_QCC_cfg.py:35-36 | 'q' followed by the decimal index |
| QccCfg.QubitNameRoundTrip | pycqed/measurement/openql_experiments/generate_QCC_cfg.py:35-36 | a qubit name reads back as its qubit and holds no separator |
| QccCfg.LutCodewordOf | pycqed/measurement/openql_experiments/generate_QCC_cfg.py:37-39 | each of the 11 lookup-table pulses is named once |
| QccCfg.BothWaysMembers | pycqed/measurement/openql_experiments/generate_QCC_cfg.py:40-64 | a pair is in the flux tuples iff it or its reverse is a coupling |
| QccCfg.CouplingsInRange | pycqed/measurement/openql_experiments/generate_QCC_cfg.py:40-64 | every coupling joins two distinct device qubits, lower index first |
| QccCfg.Couplings | pycqed/measurement/openql_experiments/generate_QCC_cfg.py:40-64 | the 24 couplings of the device |
| QccCfg.CoupledQubits | pycqed/measurement/openql_experiments/generate_QCC_cfg.py:40-64 | a coupling in either direction joins two distinct qubits of the device |
| QccCfg.FluxPair | pycqed/measurement/openql_experiments/generate_QCC_cfg.py:40-64 | the flux tuples are closed under reversal and join distinct device qubits |
| QccCfg.Pad2RoundTrip | pycqed/measurement/openql_experiments/generate_QCC_cfg.py:284-318 | `'{:02}'` of a codeword below 100 has two digits that read back as the codeword |
| QccCfg.HeadRoundTrip | pycqed/measurement/openql_experiments/generate_QCC_cfg.py:247-363 | every operation name reads back as its operation and holds no space |
| QccCfg.KeyNameRoundTrip | pycqed/measurement/openql_experiments/generate_QCC_cfg.py:247-363 | every key of the table parses back to the instruction it names |
| QccCfg.KeyNameInjective | pycqed/measurement/openql_experiments/generate_QCC_cfg.py:247-363 | distinct instructions are stored under distinct keys: no entry overwrites another |
| QccCfg.KeyName | pycqed/measurement/openql_experiments/generate_QCC_cfg.py:246-376 | a key opens with the operation's name and a space, followed by its operands |
| QccCfg.EntryOf | pycqed/measurement/openql_experiments/generate_QCC_cfg.py:246-376 | the entry's `qubits` field lists the instruction's operands: the qubit, or the two qubits of the pair in order |
| QccCfg.AddExact | pycqed/measurement/openql_experiments/generate_QCC_cfg.py:247-363 | storing one more instruction keeps the table exact |
| QccCfg.AddHolds | pycqed/measurement/openql_experiments/generate_QCC_cfg.py:247-363 | storing a valid instruction under its key keeps the table exact |
| QccCfg.Put | pycqed/measurement/openql_experiments/generate_QCC_cfg.py:247 | one assignment `cfg["instructions"][key] = entry`, keeping the table exact |
| QccCfg.AddSingles | pycqed/measurement/openql_experiments/generate_QCC_cfg.py:246-272 | `for q in qubits`: adds exactly the operation on every qubit |
| QccCfg.AddLutPulses | pycqed/measurement/openql_experiments/generate_QCC_cfg.py:275-313 | for one codeword, adds the plain, `c1` and `c0` pulses on every qubit |
| QccCfg.PutLutPulses | pycqed/measurement/openql_experiments/generate_QCC_cfg.py:275-313 | the body of the qubit loop: stores the plain, c1 and c0 pulses of the codeword on one qubit and nothing else, keeping the table exact |
| QccCfg.PutConditioned | pycqed/measurement/openql_experiments/generate_QCC_cfg.py:275-313 | stores the c1 and c0 pulses of the codeword on one qubit and nothing else, keeping the table exact |
| QccCfg.AddPairs | pycqed/measurement/openql_experiments/generate_QCC_cfg.py:345-376 | `for ft in flux_tuples`: adds exactly the operation on every flux pair |
| QccCfg.ExtendsCovers | pycqed/measurement/openql_experiments/generate_QCC_cfg.py:246-376 | a table covering the stages below lo, extended by exactly the stages lo to hi, covers the stages below hi |
| QccCfg.ExtendSingles | pycqed/measurement/openql_experiments/generate_QCC_cfg.py:246-272 | adding one single-qubit operation on every qubit extends the table by exactly that operation's stage |
| QccCfg.ExtendLut | pycqed/measurement/openql_experiments/generate_QCC_cfg.py:275-313 | adding the lookup-table pulses of one codeword extends the table by exactly that codeword's stage |
| QccCfg.ExtendPairs | pycqed/measurement/openql_experiments/generate_QCC_cfg.py:345-376 | adding one two-qubit operation on every flux pair extends the table by exactly that operation's stage |
| QccCfg.AddInitAndReadout | pycqed/measurement/openql_experiments/generate_QCC_cfg.py:246-272 | the prepz and measure loops: adds exactly prepz and measure on every qubit and keeps the rest |
| QccCfg.AddLutTable | pycqed/measurement/openql_experiments/generate_QCC_cfg.py:274-313 | the lookup-table loop: adds exactly the plain, c1 and c0 pulses of every codeword on every qubit and keeps the rest |
| QccCfg.AddCodewordTable | pycqed/measurement/openql_experiments/generate_QCC_cfg.py:316-328 | the raw codeword loop: adds exactly cw_00 to cw_31 on every qubit and keeps the rest |
| QccCfg.AddCompensateAndCz | pycqed/measurement/openql_experiments/generate_QCC_cfg.py:330-359 | adds exactly compensate on every qubit and cz on every flux pair and keeps the rest |
| QccCfg.AddFluxTable | pycqed/measurement/openql_experiments/generate_QCC_cfg.py:361-376 | adds exactly fl_cw_00 to fl_cw_07 on every flux pair and keeps the rest |
| QccCfg.GenerateConfig | pycqed/measurement/openql_experiments/generate_QCC_cfg.py:4-376 | the compiler, hardware settings, resources, topology and decompositions; every instruction of the device stored under its key with its entry, and every key naming one such instruction |
| QccCfg.HoldsComplete | pycqed/measurement/openql_experiments/generate_QCC_cfg.py:246-376 | once every loop has run, the table holds every valid instruction and nothing else |
| QccProps.MwEntryLaw | pycqed/measurement/openql_experiments/generate_QCC_cfg.py:274-341 | a microwave entry is single-qubit with a codeword below 32, no condition or condition 1 or 2, opcode 8/40/48 + codeword by condition, and the matching C1_/C0_ instruction name |
| QccProps.FluxEntryLaw | pycqed/measurement/openql_experiments/generate_QCC_cfg.py:345-376 | a flux entry drives a flux pair with equal right and left codewords below 8, opcode 128 + codeword, instruction fl_cw_NN |
| QccProps.EntryKind | pycqed/measurement/openql_experiments/generate_QCC_cfg.py:246-376 | the entry type follows the operation; two-qubit entries are exactly the flux ones; prepz takes init_duration, latency 0, opcode 2; measure takes ro_duration, ro_latency, opcode 4 |
| QccProps.MwOpcodeDetermines | pycqed/measurement/openql_experiments/generate_QCC_cfg.py:274-341 | among microwave entries, opcode and condition together determine the instruction and the codeword |
| QccProps.SharedConditionalOpcode | pycqed/measurement/openql_experiments/generate_QCC_cfg.py:298-312 | the c1 pulses of codewords 8-10 share opcodes 48-50 with the c0 pulses of codewords 0-2, under different instruction names |
| QccProps.LutIsRawCodeword | pycqed/measurement/openql_experiments/generate_QCC_cfg.py:276-328 | a named lookup-table pulse stores the same entry as the raw codeword of that number, under a different key |
| QccProps.CompensateIsCodewordZero | pycqed/measurement/openql_experiments/generate_QCC_cfg.py:330-341 | compensate plays codeword 0 |
| QccProps.CzIsFluxCodewordOne | pycqed/measurement/openql_experiments/generate_QCC_cfg.py:345-359 | cz plays flux codeword 1 |
| QccProps.SitesIndexed | pycqed/measurement/openql_experiments/generate_QCC_cfg.py:153-172 | 17 sites, site i having id i, as many as the qubit resources |
| QccProps.EdgeOfCoupling | pycqed/measurement/openql_experiments/generate_QCC_cfg.py:120-199 | edge i joins coupling i from its higher to its lower qubit; one edge per edge resource |
| QccProps.EdgeIsFluxPair | pycqed/measurement/openql_experiments/generate_QCC_cfg.py:40-199 | both directions of every topology edge are flux tuples |
| QccProps.FluxPairHasEdge | pycqed/measurement/openql_experiments/generate_QCC_cfg.py:40-199 | every flux tuple runs along a topology edge, one way or the other |
| QccProps.EdgeIsDiagonal | pycqed/measurement/openql_experiments/generate_QCC_cfg.py:153-199 | every edge joins diagonal neighbours, from one row to the row above |
| QccProps.SitesExceedGrid | pycqed/measurement/openql_experiments/generate_QCC_cfg.py:151-172 | site coordinates run past the declared 5 by 3 grid |
| QccProps.QwgDrivesQubit | pycqed/measurement/openql_experiments/generate_QCC_cfg.py:87-94 | every qubit is in the connection list of its QWG |
| QccProps.QwgListsOwnQubits | pycqed/measurement/openql_experiments/generate_QCC_cfg.py:87-94 | a QWG lists only device qubits it drives, so the three lists are disjoint |
| QccProps.MeasUnitPerQubit | pycqed/measurement/openql_experiments/generate_QCC_cfg.py:95-113 | 17 measurement units, unit u reading qubit u alone |
| QccProps.HardwareMatches | pycqed/measurement/openql_experiments/generate_QCC_cfg.py:72-83 | the hardware settings count 17 qubits, like the resources, and take the three buffers from the parameters |
| QccProps.StepTemplatesAreInstructions | pycqed/measurement/openql_experiments/generate_QCC_cfg.py:37-243 | the templates a decomposition may use: each lookup-table pulse on %0 or %1, and cz %0,%1 |
| QccProps.DecompositionUsesTable | pycqed/measurement/openql_experiments/generate_QCC_cfg.py:202-243 | every step of every gate decomposition is one of those templates |
| QccProps.BasicUsesTable | pycqed/measurement/openql_experiments/generate_QCC_cfg.py:203-215 | the same for the named gates and alternative spellings |
| QccProps.CliffordUsesTable | pycqed/measurement/openql_experiments/generate_QCC_cfg.py:217-242 | the same for the 24 Cliffords |

## Left out

- Plotting, logging and `Chevron_Analysis` (fits and FFT) of the fluxing analysis are not modelled: they produce figures, not data the extractor returns.
- The `cluster_from_interp` branch of `process_data` (fluxing_analysis.py:591-614) is not modelled. It works on interpolated heatmaps, whose interpolation (`interpolate_heatmap`) is numerical. `interp_to_1D_arr`, the reshaping it relies on, is modelled.
- The waveform generation and the settings load of `process_data` (fluxing_analysis.py:636-699) are left out: instrument I/O.
- `get_readable_optimals` is left out: it only formats text.
- Floating point is not modelled; arithmetic is exact over `real`. NaN and infinities appear only through the weight buckets of `FluxRanking.ClusterWeight`. NaN or infinite sweep data is not modelled.
- FluxClustering.FlatClusters: scipy numbers clusters by the linkage tree, the model by first appearance. Clusters with equal weight can therefore leave the ranking in another order than scipy's.
- FluxRanking.ArgSort: `np.argsort` defaults to quicksort, which is stable only for short arrays. The model is always stable.
- `multi_targets_phase_offset` is not part of this model; it is a parameter of the selection.
- `int2base` is imported by `multi_qubit_oql.py` and not defined in the `general.py` modelled here. `OqlOffOn.Int2Base` assumes the usual meaning: the minimal digits, zero-filled to the fixed length.
- OpenQL (`OqlProgram`, `create_kernel`, `compile`, `add_two_q_cal_points`, `add_multi_q_cal_points`) is a foreign library. The model keeps the kernels a builder adds and the sweep points and calibration states it computes, not the compiled program.
- The other builders of `multi_qubit_oql.py` are not modelled. Only the eight named builders are.
- The TypeError of `OqlFlux.ParkGates` for an absent q2 or q3 stands for what OpenQL's `gate` call raises on a `None` operand. OpenQL's Python binding is not part of this model.
- Wait durations are integers (`OqlTwoQubit.BellKernel` takes `round(wait_after_flux * 1e9)` as a parameter). The None defaults of `wait_time` and `nr_flux_dance` are modelled as 0.
- OqlOffOn.OffOnKernelQubit: the per-qubit view is stated for kernels without flux dances only. The flux-dance gates address qubit 0, so with them qubit 0 would see them too.
- The JSON file write at the end of `generate_config` (generate_QCC_cfg.py:378-379) is I/O.
- The insertion order of `cfg["instructions"]` is not modelled: the table is a `map`.
- The connection maps' string keys ("0", "1", ...) are modelled as list positions, and topology entries as records.
- The placeholder matrix of every entry is a constant of `real` values.
- QccProps.DecompositionUsesTable: pairwise distinctness of the decomposition names is not stated; as dictionary keys they are distinct by construction.
- General.StrToBool: `str.lower` is modelled on ASCII letters only. Non-ASCII case mappings cannot produce the accepted spellings, but the model does not prove that.
- General.AddSuffixToDictKeys: `str(key)` is a parameter of the model, since Python's `str` of arbitrary keys is not modelled.
- The docstring of `dict_to_ordered_tuples` promises tuples sorted by key, but the code leaves the sort commented out; General.DictToOrderedTuples follows the code.
- The other functions of `general.py` (git, files, settings, e-mail, serial ports, `span_lin`, `span_step`) are I/O or floating-point ranges and are left out.

## Findings

| source | as written | input that shows it | evidently intended | confidence | as-written member | corrected member |
|---|---|---|---|---|---|---|
| pycqed/analysis_v2/fluxing_analysis.py:1099-1103 | when x, y and z are all given, `interp_to_1D_arr` computes `z_int_1D = np.ravel(z_int)` but returns `z_int`, the 2-D heatmap | x = [0, 1], y = [0, 1], z = [[a, b], [c, d]]: the grid comes back with 4 points and z with 2 rows | return `z_int_1D`, aligned point by point with the flattened grid | high, not executed | HeatmapAnalysis.InterpTo1DArrAsWritten (HeatmapAnalysis.InterpAsWrittenMisaligned, HeatmapAnalysis.InterpAsWrittenExample) | HeatmapAnalysis.InterpTo1DArr (HeatmapAnalysis.InterpAligned) |
| pycqed/measurement/openql_experiments/multi_qubit_oql.py:2085-2094 | with parking qubits, one character is appended to each calibration state whatever the number of parked qubits, but the states are handed to `add_multi_q_cal_points` for `qubits + Q_idxs_parking` | two targets/controls (n = 2) and two parked qubits: each state has 3 characters for 4 qubits | append one character per parked qubit, all '0' in the first half and all '1' in the second, as the comment says | medium, not executed | OqlFlux.ParityCalStatesAsWritten (OqlFlux.ParityCalStatesAsWrittenShape, OqlFlux.ParityCalStatesShort), which OqlFlux.ParityCheckFluxDance returns, as the source does | OqlFlux.ParityCalStates (OqlFlux.ParityCalStatesShape, OqlFlux.ParityCalStatesAgree) |
