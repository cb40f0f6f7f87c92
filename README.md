# Charts: a Dafny model of the computational core

The repository is a set of small interactive math visualisations: a Vue
application whose router discovers the chart pages, an index page that
lists them, a primal/dual basis visualiser and a Shannon sampling theorem
demonstration, each as a Vue composable and as an earlier p5 sketch. This
project models the parts of it that compute something, and proves what
they compute:

- **Route derivation** (`RouterStrategies`, `Router`, `CaseConverter`):
  - the two route strategies turn the path of a chart module into a route record, or into null. Their regular expressions are written out as predicates on the offset where a match starts, and `String.prototype.match` is modelled as the leftmost such offset;
  - `pascalToSnake` turns a component name into a route name;
  - the router offers every module path to the strategies in order, keeps the first route returned and drops the paths nobody accepts. The resulting chart routes sit between the home route and the catch-all 404 route.
- **String helpers**:
  - `replaceUnderscoresAndTrimEdges` (`StringUtils`);
  - `createChartName` from the chart index page (`ChartIndex`).
  - Both are restricted to ASCII through the `Ascii` module.
- **2x2 primal/dual basis** (`Basis`, `BasisComposable`, `BasisSketch`):
  - the determinant, the degeneracy threshold |det M| < 0.001 with NaN sentinels, the adjugate inverse and the dual basis as the rows of M^-1. NaN is modelled as `None`;
  - the composable is a class whose `PerformCalculations` rewrites the reactive record from the sliders;
  - the sketch is a class over the closure state that `setBasisToStandard`, `resetBasis`, the slider sync and `calculateTransformations` update, and whose frame draws the dual only when det M is a number above 0.001 in size.
- **Shannon sampling** (`Sampling`, `ShannonComposable`, `ShannonSketch`):
  - the normalised sinc and the mouse-to-fs map with its clamps;
  - the sampling loop, with its endpoint clamp, 1e-9 de-duplication and cap of 1000 pushes;
  - the Whittaker-Shannon reconstruction as a nested accumulation into an array;
  - the aliasing test;
  - the composable's watchers as a synchronous cascade;
  - the p5 sketch's `setup`/`draw` loops.
  - The reconstruction is specified by the sum `SincSum`. When `sin` vanishes at the non-zero multiples of pi, the sum interpolates the samples of a uniform schedule (`Sampling.ReconstructionInterpolates`).

Times and values are exact reals, and `sin` is a parameter that the model does not interpret. Loops over time use an integer counter `j` with time `j * step`.

Where the code and its written description disagree, the model follows the code:

- **The first reconstruction is empty.** The Shannon composable's immediate watchers run before `initializeSignal`. Its first reconstruction is therefore built over an empty time vector. Until the sampling frequency next changes, `reconstructedSignal` is empty while `timeVector` is full (`ShannonComposable.ShannonSampling.constructor`). The two arrays do not always have the same length.
- **The sample cap is 1001.** The cap compares the count with `> 1000` after the push, so the loop can hold 1001 sample times, not at most 1000. The cap is only reached for fs of about 166.6 or more; both `calculateFs` and the sketch clamp fs to at most 5.1, which gives at most 32 samples, so in the program the cap never fires.

## Model

| member | source | states |
|---|---|---|
| Ascii.ToLower | src/utils/caseConverter.ts:19 | the lower-case of an ASCII capital is the letter 32 code points up; every other character is unchanged; no capital results |
| Ascii.ToUpper | src/main.js:30 | the upper-case of an ASCII lower-case letter is 32 code points down; everything else is unchanged; no lower-case letter results |
| Ascii.LowerString | src/utils/caseConverter.ts:19 | toLowerCase keeps the length and lower-cases each character in place |
| CaseConverter.StripViewSuffixRemovesOne | src/utils/caseConverter.ts:12 | exactly one trailing "View" is removed when present, e.g. "ViewView" becomes "View"; other names are unchanged |
| CaseConverter.StripViewOf | src/utils/caseConverter.ts:12 | a name ending in "View" loses exactly those four characters |
| CaseConverter.SnakeFromNoUpper | src/utils/caseConverter.ts:14-19 | the converted text contains no upper-case ASCII letter |
| CaseConverter.SnakeFromLength | src/utils/caseConverter.ts:15-18 | the converted text is longer than the input by the number of capitals, not counting a capital at offset 0 |
| CaseConverter.SnakeFromAt | src/utils/caseConverter.ts:15-19 | each character appears lower-cased at its own offset (its index plus the underscores added before it), right after an underscore exactly when it is a capital that is not at offset 0 of the name |
| CaseConverter.SnakeFromKeepsLetters | src/utils/caseConverter.ts:14-19 | with the inserted underscores dropped, the result is the lower-cased input |
| CaseConverter.SnakeTwoWords | src/utils/caseConverter.ts:15-18 | two capitalised words become two lower-case words joined by one '_' |
| CaseConverter.PascalToSnakeShape | src/utils/caseConverter.ts:10-20 | pascalToSnake has no capitals. Its length is that of the base name plus the capitals after offset 0. Each character of the base name sits lower-cased at its offset, with an underscore right before it exactly when it is a capital after offset 0; this fixes the whole result |
| CaseConverter.PascalToSnakeIdempotent | src/utils/caseConverter.ts:10-20 | converting a converted name changes nothing |
| CaseConverter.PascalToSnakeExample1 | src/utils/caseConverter.ts:5 | "PascalCaseView" becomes "pascal_case" |
| CaseConverter.PascalToSnakeExample2 | src/utils/caseConverter.ts:6 | "TestView" becomes "test" |
| CaseConverter.PascalToSnakeExample3 | src/router/strategies.ts:15 | the component name "MyExample" becomes the route name "my_example" |
| StringUtils.LeadingRun | utils/stringUtils.ts:18 | the leading run removed is made of '_' and is maximal |
| StringUtils.TrailingRun | utils/stringUtils.ts:18 | the trailing run removed is made of '_' and is maximal |
| StringUtils.UnderscoresToSpacesAt | utils/stringUtils.ts:23 | the replacement keeps the length and turns each '_' into ' ', leaving every other character in place |
| StringUtils.TrimEdgesCharacterisation | utils/stringUtils.ts:8-26 | the result drops the maximal leading and trailing runs of '_' and keeps every other character in order, with '_' as ' '; its length is the input's minus the two runs |
| StringUtils.AllUnderscoresGiveEmpty | utils/stringUtils.ts:18 | an input made only of '_' gives the empty string |
| StringUtils.NoUnderscoreLeft | utils/stringUtils.ts:18-23 | the result contains no '_' |
| StringUtils.ReplaceUnderscoresIdempotent | utils/stringUtils.ts:8-26 | applying the function twice is applying it once |
| StringUtils.ReplaceUnderscoresExamples | utils/stringUtils.ts:9-11 | the empty input gives ""; "__a_b__" gives "a b" |
| ChartIndex.JoinSplit | src/main.js:27-30 | join with the separator undoes split |
| ChartIndex.SplitPiecesHaveNoSep | src/main.js:27 | no piece of a split contains the separator |
| ChartIndex.SplitLastPiece | src/main.js:27 | the last piece of a split is what follows the last separator |
| ChartIndex.SplitLastPieceEmpty | src/main.js:27 | the last piece is empty exactly when the text is empty or ends in the separator |
| ChartIndex.NonEmptyHasNoEmpty | src/main.js:27 | the filter keeps no empty piece |
| ChartIndex.NoSegmentIffOnlySlashes | src/main.js:27-28 | there is no non-empty segment exactly when the path consists of '/' only |
| ChartIndex.LastNonEmptySegment | src/main.js:27-28 | the last non-empty segment is the text after the last '/' once trailing '/' are dropped |
| ChartIndex.CapitaliseSnoc | src/main.js:30 | capitalising upper-cases the first character only |
| ChartIndex.TitleSnoc | src/main.js:30 | one more character of the name adds one character to the title: ' ' for '-', the upper-case after '-' or at the start, else the character |
| ChartIndex.TitleCharacterisation | src/main.js:30 | the title has the name's length, a space for each '-', the first character of each dash-separated word upper-cased and every other character unchanged |
| ChartIndex.CreateChartNameCharacterisation | src/main.js:25-31 | createChartName fails (name undefined) exactly for a path of '/' only; otherwise it is the title of the last non-empty, '/'-free segment |
| ChartIndex.TitleExample | src/main.js:29 | "cool-data-vis" becomes "Cool Data Vis" |
| ChartIndex.LastSegmentExample | src/main.js:26 | the last segment of "/charts/cool-data-vis/" is "cool-data-vis" |
| ChartIndex.CreateChartNameExample | src/main.js:26-30 | "/charts/cool-data-vis/" becomes "Cool Data Vis" |
| RouterStrategies.Leftmost | src/router/strategies.ts:19 | the leftmost offset in the range where the pattern matches; none only when no offset in the range matches |
| RouterStrategies.SingleFileMatchUnique | src/router/strategies.ts:19 | the single-file pattern can match at one offset only |
| RouterStrategies.SingleFileViewStrategySpec | src/router/strategies.ts:17-30 | singleFileViewStrategy accepts exactly the paths its regular expression matches. On a match the component name is non-empty and '/'-free, the route path is "/charts/" + pascalToSnake(name) and the name is pascalToSnake(name); otherwise the result is null |
| RouterStrategies.DirectoryIndexStrategySpec | src/router/strategies.ts:37-51 | directoryIndexStrategy accepts exactly the paths its regular expression matches. The base path is taken after the leftmost prefix and is non-empty; the route path is "/charts/" + base; the name is base with '/' as '-'; otherwise the result is null |
| RouterStrategies.SlashesToDashesAt | src/router/strategies.ts:43 | the replacement keeps the length and turns each '/' into '-' in place |
| RouterStrategies.DirectoryRouteNameHasNoSlash | src/router/strategies.ts:43-46 | a directory route's name contains no '/' |
| RouterStrategies.NoPathMatchesBoth | src/router/strategies.ts:19-39 | no path matches both regular expressions, whatever the offsets |
| RouterStrategies.StrategiesDisjoint | src/router/strategies.ts:17-51 | no path is accepted by both strategies |
| RouterStrategies.SingleFileOfParts | src/router/strategies.ts:14-27 | two characters, "/views/charts/", a non-empty '/'-free name and "View.vue" give the route of pascalToSnake(name) |
| RouterStrategies.DirectoryIndexOfParts | src/router/strategies.ts:33-48 | two characters, "/views/charts/", a non-empty base path and "/index.vue" give the route "/charts/" + base, named base with '/' as '-' |
| RouterStrategies.SlashesToDashesExample | src/router/strategies.ts:35 | the base path "nested/feature" gives the route name "nested-feature" |
| Router.FirstMatch | src/router/index.ts:35-46 | the strategy loop yields null exactly when every strategy returns null |
| Router.FirstMatchIsFirst | src/router/index.ts:35-43 | a route found is the one returned by some strategy that every earlier strategy declined |
| Router.RouteForSpec | src/router/index.ts:16-20 | with the order [singleFile, directoryIndex], a module gets the single-file route if that strategy accepts it and the directory route otherwise; the reverse order gives the same routes |
| Router.ChartRouteShape | src/router/index.ts:32-47 | every generated route has a path starting with "/charts/" and loads its own module |
| Router.AcceptedIndicesBounds | src/router/index.ts:32-48 | there are as many kept routes as accepted modules; their positions are in range and strictly increasing |
| Router.ChartRoutes | src/router/index.ts:45-48 | dropping the unmatched paths leaves no more routes than modules |
| Router.AcceptedRoutes | src/router/index.ts:32-48 | the k-th kept route is the route of the module at the k-th accepted position |
| Router.AcceptedMembership | src/router/index.ts:45-48 | a module's position is kept exactly when some strategy accepts it |
| Router.ChartRoutesByIndex | src/router/index.ts:32-48 | the k-th chart route is the route of the k-th accepted module, in module order; exactly the accepted modules are kept, so there are no more routes than modules |
| Router.Routes | src/router/index.ts:52-77 | the table is the home route, then the chart routes in order, then the catch-all 404 route |
| Router.RoutesShape | src/router/index.ts:52-77 | every route except the first and the last is a chart route under "/charts/" |
| Basis.Inverse | composables/useBasisTransformation.ts:35-44 | the inverse is absent exactly when |det M| < 0.001; when present, M M^-1 = M^-1 M = I |
| Basis.AdjugateInverts | composables/useBasisTransformation.ts:40-44 | for non-zero det the adjugate scaled by 1/det is a two-sided inverse of M |
| Basis.Recompute | composables/useBasisTransformation.ts:23-48 | e1 and e2 are the slider values and detM = a d - b c. M^-1, epsilon1 and epsilon2 are NaN exactly when |det| < 0.001; otherwise the epsilons are the rows of M^-1. Nothing depends on the previous record |
| Basis.DualBasisBiorthogonal | composables/useBasisTransformation.ts:45-46 | whenever the dual basis is defined, eps^i . e_j is 1 for i = j and 0 otherwise |
| Basis.DualBasisUnique | composables/useBasisTransformation.ts:40-46 | for a non-degenerate basis, any pair biorthogonal to it is the computed dual basis |
| Basis.StandardBasisIsIdentity | composables/useBasisTransformation.ts:13-20 | at the standard basis the calculation gives detM = 1, M^-1 = I and the standard dual basis, the literal initial record |
| Basis.DualDrawnOnlyWhenComputed | primal_and_dual_basis_linear_transformation/index.ts:147-157 | the dual is drawn only when it was computed; at |det M| = 0.001 it is computed but not drawn |
| Basis.ThresholdGapExample | primal_and_dual_basis_linear_transformation/index.ts:258-272 | e1 = (0.001, 0), e2 = (0, 1) has an inverse but no drawn dual |
| BasisComposable.BasisTransformation.constructor | composables/useBasisTransformation.ts:7-51 | the sliders start at (1, 0, 0, 1); after the initial calculation the record is the identity case |
| BasisComposable.BasisTransformation.PerformCalculations | composables/useBasisTransformation.ts:23-48 | every field of the record is rewritten as Recompute of the current sliders; the sliders are unchanged |
| BasisSketch.BasisSketch.constructor | primal_and_dual_basis_linear_transformation/index.ts:26-35 | before setup detM and M^-1 are NaN and no vector or slider exists |
| BasisSketch.BasisSketch.SetBasisToStandard | primal_and_dual_basis_linear_transformation/index.ts:175-184 | e1 = (1, 0) and e2 = (0, 1); detM, M^-1 and both dual vectors become NaN; the sliders are untouched |
| BasisSketch.BasisSketch.UpdateSlidersFromBasis | primal_and_dual_basis_linear_transformation/index.ts:187-193 | existing sliders take the components of e1 and e2; nothing else changes |
| BasisSketch.BasisSketch.ResetBasis | primal_and_dual_basis_linear_transformation/index.ts:169-172 | the standard basis with invalid dual, and existing sliders at (1, 0, 0, 1) |
| BasisSketch.BasisSketch.CreateSliders | primal_and_dual_basis_linear_transformation/index.ts:209-227 | each slider starts at the matching component of the current primal basis |
| BasisSketch.BasisSketch.Setup | primal_and_dual_basis_linear_transformation/index.ts:96-130 | after setup the basis is standard, the sliders read (1, 0, 0, 1) and the dual is NaN |
| BasisSketch.BasisSketch.MoveSliders | primal_and_dual_basis_linear_transformation/index.ts:240-243 | the user sets the four slider values; the sketch state is untouched |
| BasisSketch.BasisSketch.UpdateBasisVectorsFromSliders | primal_and_dual_basis_linear_transformation/index.ts:237-246 | the existing e1 and e2 take the slider values; nothing else changes |
| BasisSketch.BasisSketch.CalculateTransformations | primal_and_dual_basis_linear_transformation/index.ts:249-274 | nothing changes before the vectors exist; otherwise detM = e1.x e2.y - e1.y e2.x, M^-1 is the inverse or NaN below the threshold, and the duals are its rows |
| BasisSketch.BasisSketch.Draw | primal_and_dual_basis_linear_transformation/index.ts:133-157 | a frame computes from the sliders exactly what the composable computes; the dual is drawn exactly when |det M| > 0.001, and only when it is defined |
| BasisSketch.FirstFrameDrawsDual | primal_and_dual_basis_linear_transformation/index.ts:133-157 | a first frame at the standard basis draws the standard dual basis |
| Sampling.Sinc | composables/useShannonSampling.ts:7-13 | mySinc(0) = 1; for x != 0, mySinc(x) * pi x = sin(pi x) |
| Sampling.CalculateFs | composables/useShannonSampling.ts:34-39 | fs is NaN exactly for a zero canvas width, and otherwise lies in [FS_MIN, FS_MAX] |
| Sampling.CalculateFsClamps | composables/useShannonSampling.ts:34-39 | left of the canvas fs = FS_MIN; right of it fs = FS_MAX; inside it is the linear map onto [FS_MIN, FS_MAX] |
| Sampling.CalculateFsNegativeWidth | composables/useShannonSampling.ts:35-38 | a negative canvas width always gives FS_MIN |
| Sampling.CalculateFsMonotone | composables/useShannonSampling.ts:34-39 | fs does not decrease as the mouse moves right |
| Sampling.AliasingThreshold | composables/useShannonSampling.ts:94 | aliasing is flagged exactly when the mouse is left of 18% of the canvas width |
| Sampling.NextStep | composables/useShannonSampling.ts:68-75 | one loop pass: a pushed time is min(j Ts, TIME_END), at least 1e-9 from the previous one; a push is the last when the count exceeds 1000 |
| Sampling.SampleTimesProperties | composables/useShannonSampling.ts:65-76 | for fs > 0 the schedule starts at 0, has 1 to 1001 times, each in [0, TIME_END] and at least 1e-9 above the previous |
| Sampling.SampleLoopSpaced | composables/useShannonSampling.ts:68-76 | the rest of the loop keeps the pushed times within [0, TIME_END] and increasing by at least 1e-9 |
| Sampling.Reconstruction | composables/useShannonSampling.ts:82-92 | the reconstruction has one entry per time of the grid |
| Sampling.SincAtSamples | composables/useShannonSampling.ts:7-13 | at the sample times of a uniform schedule the shifted sinc is 1 on its own sample and 0 on the others |
| Sampling.SincSumAtSample | composables/useShannonSampling.ts:84-91 | the partial sum over the first n samples at sample m is x_m if m < n, else 0 |
| Sampling.ReconstructionInterpolates | composables/useShannonSampling.ts:82-92 | the reconstruction passes through every sample of a uniform schedule |
| ShannonComposable.ScheduleFor | composables/useShannonSampling.ts:57-76 | for fs > 0 the schedule is non-empty, starts at 0, is well spaced and holds at most 1001 times; for fs <= 0 or NaN it is empty |
| ShannonComposable.AddContributions | composables/useShannonSampling.ts:87-90 | every entry of the array gains x_n mySinc(fs (t_k - t_n)) for its own time t_k |
| ShannonComposable.ShannonSampling.constructor | composables/useShannonSampling.ts:17-107 | the watchers run before initializeSignal: fs follows the centred mouse, the state is derived, the time vector is built, and the reconstruction is empty |
| ShannonComposable.ShannonSampling.InitializeSignal | composables/useShannonSampling.ts:42-52 | the time vector is 0, TIME_STEP, 2 TIME_STEP, ... while at most TIME_END; the original signal is sin(2 pi f0 t) at each time; the other fields are unchanged |
| ShannonComposable.ShannonSampling.Sample | composables/useShannonSampling.ts:65-79 | the sampling loop yields exactly the schedule of period 1 / fs and the signal at each of its times |
| ShannonComposable.ShannonSampling.Reconstruct | composables/useShannonSampling.ts:82-93 | the nested loop leaves entry k equal to the sum over the samples of x_n mySinc(fs (t_k - t_n)) |
| ShannonComposable.ShannonSampling.UpdateSampledAndReconstructed | composables/useShannonSampling.ts:55-95 | for fs <= 0 or NaN: no samples, all-zero reconstruction; otherwise the schedule, its values and their reconstruction; the aliasing flag is fs < NYQUIST_FREQUENCY |
| ShannonComposable.ShannonSampling.SetSamplingFrequency | composables/useShannonSampling.ts:102-104 | the state watcher updates samples and reconstruction only when fs actually changes |
| ShannonComposable.ShannonSampling.SetMouseX | composables/useShannonSampling.ts:98-112 | a new mouse position recomputes fs. The state stays derived from the inputs, and an unchanged fs leaves the reconstruction as it was. With the width fixed, fs can only change to a positive value, and then the reconstruction is the sum over the new samples |
| ShannonComposable.ShannonSampling.SetCanvasWidth | composables/useShannonSampling.ts:114-118 | a new width recomputes fs. The state stays derived from the inputs, and an unchanged fs leaves the reconstruction as it was. A change to a positive fs gives the sum over the new samples; a change to NaN (width 0) gives all zeros over the time vector |
| ShannonSketch.SketchFs | shannon_sampling_theorem/index.js:132-133 | the sketch's fs always lies in [0.1, 5.1] |
| ShannonSketch.SketchFsAgrees | shannon_sampling_theorem/index.js:132-133 | on an 800 pixel canvas the sketch's map/constrain gives the composable's calculateFs |
| ShannonSketch.SketchAliasingAgrees | shannon_sampling_theorem/index.js:207-213 | the warning is shown exactly where the composable flags aliasing |
| ShannonSketch.SketchSincIsShiftedSinc | shannon_sampling_theorem/index.js:66-71 | the sketch's sin(x) / x with x = pi (t - delay) fs is the composable's mySinc(fs (t - delay)) |
| ShannonSketch.AddScaled | shannon_sampling_theorem/index.js:177-182 | every entry below both lengths gains the sample value times its sinc; the rest is unchanged |
| ShannonSketch.ShannonSketch.constructor | shannon_sampling_theorem/index.js:7-11 | all arrays empty and fs undefined |
| ShannonSketch.ShannonSketch.Setup | shannon_sampling_theorem/index.js:78-95 | t is 0, 0.01, 0.02, ... while below 6, and sineWave is sin(2 pi 0.5 t) at each time |
| ShannonSketch.ShannonSketch.MySinc | shannon_sampling_theorem/index.js:61-74 | one value per time of t: 1 where x = 0, else sin(x) / x, i.e. the shifted sinc centred on the delay |
| ShannonSketch.ShannonSketch.Draw | shannon_sampling_theorem/index.js:130-213 | fs from the mouse; sample times i Ts, each at most 6, no clamp or de-duplication, at most 1001; the reconstruction on t; the warning exactly when fs < 1 |
| ShannonSketch.ShannonSketch.Reconstruct | shannon_sampling_theorem/index.js:170-183 | x_r starts at zero and ends as the sum over the samples of their value times mySinc, the composable's reconstruction |

## Left out

- Floating-point rounding. Times and values are exact reals, so the counts of the float-accumulating loops are not claimed. For example, whether 6.0 is the last time of the time vector depends on accumulated error in the source.
- Unicode case mapping. toUpperCase and toLowerCase are modelled on ASCII letters only.
- `sin` is an uninterpreted parameter. The interpolation property holds only for a `sin` that vanishes at the non-zero integer multiples of pi, which the double-precision `Math.sin` does not do exactly.
- The Vue scheduler: reactivity, `readonly` and the asynchronous flush. The watchers are modelled as a synchronous cascade that settles before the setter returns.
- The p5 canvas, the sketch's drawing code, `GridRenderer`, `drawVector`, the DOM elements of `createUIElements` and the `p5.Vector` objects, which are modelled as values. p5 also quantises sliders to their 0.1 step and the range [-2, 2]; slider values are plain reals here.
- KaTeX and `updateInfoDOM`: `toFixed` formatting and `renderMathInElement`.
- `v_std`, `v_primal` and `v_dual`: no code in the modelled files computes them.
- `hilbert_transform_sgn/index.js`, the renderers under `lib/`, the Vue wrapper composables, and the build and bootstrap files. They are drawing, lifecycle or configuration code.
- `import.meta.glob`: the list of module paths is a parameter of `Router.Routes` and `Router.ChartRoutes`. The glob patterns themselves are not modelled.
- Route names are not checked for duplicates, because the router does not check them either.
- `console.warn` for unmatched paths, `console.log` of the Nyquist frequency, and `console.error`: logging effects.
- The DOM list-building around `createChartName`; only the function is modelled.
- RouterStrategies lemmas state the doc examples of the strategies for the general path shape `prefix + "/views/charts/" + name + suffix`; the literal paths of those examples are not written out.
- BasisSketch.BasisSketch.Draw requires setup to have run, since the source reads the sliders unconditionally and would throw before they exist.
- ShannonSketch.ShannonSketch.MySinc requires fs to be defined: before the first frame `fs` is undefined in the source, which is modelled as `None`.
- Strings are sequences of Unicode code points, not of UTF-16 code units. A regular expression `.` without the `u` flag matches one code unit in JavaScript, so a character outside the Basic Multilingual Plane just before "/views/charts/" would fill both `..` positions there but only one in the model. Glob paths start with "../", so this case does not arise.
- The composable's inline term `xn * mySinc(fs * (tk - tn))` is named `Sampling.Contribution`. The inner reconstruction loops are factored into `ShannonComposable.AddContributions` and `ShannonSketch.AddScaled`.
