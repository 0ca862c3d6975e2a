# Verified model of the mentisrex research platform

This project models the parts of the mentisrex quantitative-research platform whose behaviour is
hardest to see from the code, and proves properties of them for all inputs, all runs or all reachable
states. `dafny verify dfyconfig.toml` checks everything.

* **Portfolio construction** (`Vectors`, `Projection`, `ProjectedGradient`, `StepSizes`, `Sizing`,
  `RiskParityRate`, `RiskParityPair`, `RiskParityRuns`, `RiskParitySigns`, `Aggregation`, `AlphaValues`, `Exposure`,
  `Leverage`, `Orders`, `OrderBatch`): signals are standardised and blended into alphas, a sizing scheme or a
  projected-gradient solver turns alphas into weights, an overlay forces the weights into the exposure
  budget, and a loop turns them into whole-share orders screened by the risk engine. The solver's
  convergence rate is proved for the bisection projection as it is, which hits the sum 1 only
  approximately: the cost of that is part of the rate. For the risk-parity iteration it is proved when it
  converges and how fast.
* **The event-driven backtest** (`Portfolio`, `Backtest`, `Conservation`, `Timing`, `Executions`, `Marks`,
  `CrossSymbol`, `Lateness`, `BacktestEngine`): `Backtest` is the state machine as functions, `BacktestEngine`
  is the engine object whose methods update its fields, proved equal to it step by step. The simulator, the order-management
  record, the risk engine, the event queue and the portfolio are modelled too, not assumed.
* **The feature pipeline** (`Pipeline`, `FeatureCache`, `FeatureWindows`): cache, incremental mode and
  bounded window, each compared with plain recomputation over the whole history.
* **Hypothesis admission** (`Similarity`, `Admission`, `AdmissionLoop`): quality gate, Jaccard duplicate
  check, and what the loop keeps about the accepted set.
* **The versioned graph store** (`KnowledgeGraph`) and **the roadmap** (`Roadmap`).

`Reals`, `Sums` and `Dicts` hold small helpers: products the solver can follow, sums over sequences, and
insertion-ordered dictionaries. Prices, weights and `Decimal` amounts are mathematical reals. Loops and
objects of the program are methods and classes, each proved equal to a function, and the theorems are
about those functions.

## What the code does not promise

Some properties that the documentation suggests do not hold of the code as written. The code is kept as
it is; each gap has its exact condition.

* The risk-parity iteration is said to converge for a well-conditioned positive semi-definite covariance. It does,
  at a rate, for covariances without negative entries (`RiskParityConverges`, `RunShrinks`; `StepShrinks` for one
  step). Volatilities 1 and 2 with correlation -0.4, condition number at most 5.25, make it swing for ever
  between two books with 94 percent of the risk in one name (`SwingsForEver`, `SwingingNeverEven`,
  `SwingingWellConditioned`). For two names of volatilities a and b and correlation r: no step ever leads away
  from parity exactly when r is not negative (`NeverAwayIff`, `AwayIff`), and while the floors are out of play
  the run from equal weights reaches parity exactly when r(a^2 + b^2) + ab > 0 or a = b (`ReachesParityIff`,
  `NearerIff`); below that it runs into a floor (`BelowThreshold`).
* The signs of the alphas are put on after that iteration, so a book with shorts can lose its equal
  contributions (`ShortCarriesNoRisk`): it keeps them exactly when every name has the same joint risk with the names on
  the other side (`SignsKeepParityIff`), which two names always have (`TwoStayEven`).
* The solver takes any step a caller gives. Beyond 1/lam, twice the default, a step can raise the variance; up to
  there no exactly projected step does (`NeverRisesIff`).
* The overlay's docstring says all caps hold at once. They do, for the gross *budget*. When the
  correlation haircut is applied to a negative average correlation the budget is above
  `max_gross_leverage` (`HaircutIff`, `NegativeCorrelationExample`). Every overlaid book is within the gross
  cap exactly when that does not happen or nothing can be held (`GrossLeverageIff`); a sector map helps only
  if all its sectors together, and one cap for the unmapped names, hold no more than the gross cap
  (`SectoredLeverageIff`). The builder itself only passes average absolute correlations, which are never
  negative.
* The risk engine approves every sell from a long position without looking at the caps, also one that
  turns it short and past them (`FlipPassesUncapped`); orders of every size respect the caps exactly when
  the order is not such a sell (`CapsHoldIff`).
* Reducing and closing trades are said to skip the size caps. Buying back a short does not (`CoveringRejected`): a
  trade towards zero passes whole under all limits exactly when it sells from a long (`TowardsZeroPassesIff`).
* All orders of a batch are screened against the account as it was before the batch, so together they can
  exceed the leverage limit (`BatchExceeds`). From an account that holds nothing they respect it at all
  prices exactly when the shares of NAV they can reach add up to no more than the limit
  (`BatchLeverageIff`); from any account they do when the exposure held and the room of every name together
  do (`BatchKeepsLeverage`).
* When a box is infeasible the projection returns equal weights, which are then always outside the box
  (`FallbackOutsideBox`); its result is in the box exactly when the box is feasible (`ProjectBoxSimplex`).
* Source weights that cancel out make the blend's shares sum to 0 instead of 1 (`CancellingWeights`,
  `SharesSumToOneIff`).
* An order can be filled at the very timestamp of the bar it was created on, when a strategy signals
  another symbol (`SameTimestampExecution`); it is always filled on a later bar (`NoSameBarExecution`). Every
  fill of every strategy is strictly later in time exactly when the feed never lets another, already quoted,
  symbol trade after a bar but no later in time (`LaterIff`).
* The feature cache is keyed by timestamp, so of two bars of a symbol with one timestamp the later is given
  the earlier one's values (`DistinctTimesIff`).
* A cached pipeline keeps values computed under a benchmark that was incomplete then (`BenchmarkIff`), and
  a later bar without a benchmark close changes earlier values (`NoLookAhead`, `IncrementalIff`,
  `CoverageLost`): the condition is that the benchmark is the same on the shared bars.
* Registering a feature with a longer look-back can change another feature's values (`WindowStartMatters`):
  a feature has one value in all pipelines exactly when its own look-back settles that value
  (`FeatureSetIff`), which an exponential average's does only for span 1 (`EmaSetIff`). By how much the
  start of the window matters is `StartDecays`.
* Graph traversal never goes beyond one hop, and leaves out a root without edges (`TraverseStopsShort`,
  `LoneRootMissing`, `TraverseIsBallIff`).
* An upsert changes the text of a node and keeps its old embedding (`StaleEmbedding`): an embedding is
  current exactly when the latest upsert since it was made has the text it was made from
  (`EmbeddingCurrentIff`, `UpsertKeepsCurrentIff`).

## Model

| member | source | states |
|---|---|---|
| Projection.ProjectBoxSimplex | src/mentisrex/construction/optimize.py:99-115 | for every input the loop's result is the bisected projection `Projected`; it is a clipped shift of v, inside the box, whose sum is 1 up to the initial bracket width times n over 2^101 (up to the tolerance of the guard when the box only just fails to hold the sum 1); equal weights for an infeasible box; the result is in the box exactly when the box is feasible |
| Projection.ProjectedAccuracy | src/mentisrex/construction/optimize.py:107-115 | whenever the box has room for a sum of 1 that projection is in the box and its sum misses 1 by at most n first brackets over 2^101 |
| Projection.ProjectedInBoxIff | src/mentisrex/construction/optimize.py:105-115 | the projection is in the box exactly when n*lo is at most 1 + 1e-9 and n*hi at least 1 - 1e-9, and is 1/n throughout otherwise |
| Projection.BracketStart | src/mentisrex/construction/optimize.py:107-107 | the first bracket reaches from the shift at which every entry is at hi to the one at which every entry is at lo |
| Projection.BracketStep | src/mentisrex/construction/optimize.py:108-114 | either half of a bracket is a bracket of half the width |
| Projection.Variational | src/mentisrex/construction/optimize.py:99-115 | the projection satisfies the variational inequality of the box against every point of it, up to tau times the difference of the sums |
| Projection.NearestPoint | src/mentisrex/construction/optimize.py:99-115 | no point of the box with the same sum is closer to v, and an equally close one is the projection itself |
| Projection.FallbackOutsideBox | src/mentisrex/construction/optimize.py:105-106 | equal weights are returned only when no vector of the box sums to 1, and are then outside the box |
| Projection.FeasibleIff | src/mentisrex/construction/optimize.py:80-80 | a box holds a vector of sum 1 exactly when n*lo <= 1 <= n*hi |
| Projection.ShiftedSumLipschitz | src/mentisrex/construction/optimize.py:100-103 | the clipped sum falls in tau, by at most n times the change of tau |
| ProjectedGradient.ConstrainedMinVariance | src/mentisrex/construction/optimize.py:73-96 | for every step the result is the iterate `Descended` of its length; for an admissible step after any number of iterations the weights are in the box, sum to 1 up to the bisection drift, and are within the rate of every feasible portfolio; equal weights for an infeasible box |
| ProjectedGradient.GradientIsSlope | src/mentisrex/construction/optimize.py:94-94 | before projection a step moves in every direction by the step size times the slope of the variance in that direction, downhill |
| ProjectedGradient.StepProgress | src/mentisrex/construction/optimize.py:93-95 | twice the step times the excess variance over any feasible x is paid for by the decrease of the squared distance to x, up to the slip of the projection |
| ProjectedGradient.RateStep | src/mentisrex/construction/optimize.py:93-95 | one more step keeps the 1/k rate and raises the variance by no more than the slip allows |
| ProjectedGradient.ExactRun | src/mentisrex/construction/optimize.py:80-96 | for exact projections the excess variance falls like 1/k against every feasible x and never rises |
| ProjectedGradient.RateInPlainForm | src/mentisrex/construction/optimize.py:89-92 | with step 1/(2 lam): k (f(w) - f(x)) <= lam (squared distance of the start to x, plus slips) |
| ProjectedGradient.NearestProjects | src/mentisrex/construction/optimize.py:99-103 | a nearest feasible point satisfies the projection inequality without slip |
| ProjectedGradient.GradientBounded | src/mentisrex/construction/optimize.py:94-95 | an admissible gradient step moves no weight by more than (1 + squared length)/2, whatever the covariance |
| ProjectedGradient.BisectionNearOne | src/mentisrex/construction/optimize.py:107-115 | the projected gradient step sums to 1 up to a drift that depends only on the box and the number of halvings |
| ProjectedGradient.BisectionProjects | src/mentisrex/construction/optimize.py:107-115 | and is an approximate projection, with that drift times the largest shift as slip, seen from every point of the box of nearly unit sum |
| ProjectedGradient.DefaultStepAdmissible | src/mentisrex/construction/optimize.py:90-92 | the default step is 1/(2 lam), and 1 without a positive lam |
| StepSizes.StepDescends | src/mentisrex/construction/optimize.py:93-95 | a step of at most 1/lam raises the variance by no more than the slip of its projection over the step |
| StepSizes.NeverRisesIff | src/mentisrex/construction/optimize.py:78-95 | exactly projected steps of one size never raise the variance of any covariance bounded by lam, on any box, exactly when the size is at most 1/lam |
| Sizing.EqualWeightGross | src/mentisrex/construction/sizing.py:40-45 | equal weights use exactly the whole book as soon as one name has a view |
| Sizing.EqualWeightBook | src/mentisrex/construction/sizing.py:36-45 | the book holds exactly the names with a view, all of one size, each with the sign of its alpha |
| Sizing.VolatilityTargetHit | src/mentisrex/construction/sizing.py:66-70 | whenever the variance before scaling is positive the returned book has exactly the target variance, with a covariance and under independence (its signs and proportions are `VolatilityTargetBook`) |
| Sizing.VolatilityTargetBook | src/mentisrex/construction/sizing.py:59-70 | the returned book holds exactly the names with a view and a positive volatility, each with the sign of its alpha, all with one product of size and volatility, scaled or not |
| Sizing.VolatilityTargetUnscaled | src/mentisrex/construction/sizing.py:66-70 | a book without positive variance is returned unscaled |
| Sizing.InverseVolBook | src/mentisrex/construction/sizing.py:59-64 | before scaling the book has gross 1 and holds exactly the names with a view and a positive volatility, each with the sign of its alpha and in proportion to the inverse of its volatility |
| Sizing.VarianceScales | src/mentisrex/construction/sizing.py:100-108 | scaling a book scales its variance by the square, in both branches |
| Sizing.IndependentIsDiagonal | src/mentisrex/construction/sizing.py:103-108 | without a covariance the variance is that of the diagonal covariance of the squared volatilities |
| Sizing.RiskParity | src/mentisrex/construction/sizing.py:81-97 | the loop with its early exit returns the iterate, of gross 1, negative exactly where alpha is; what the iterates come to is stated in the RiskParity modules |
| Sizing.ParityStepIs | src/mentisrex/construction/sizing.py:86-95 | one update, entry by entry: in proportion to weight times root of mean contribution over own contribution, with the floors 1e-12 and 1e-9; none once the variance is not positive |
| Sizing.IteratesOnSimplex | src/mentisrex/construction/sizing.py:85-95 | every iterate is strictly positive and sums to 1 |
| Sizing.FixedPointIsParity | src/mentisrex/construction/sizing.py:78-95 | a fixed point with both floors inactive has equal risk contributions |
| Sizing.ParityIsFixedPoint | src/mentisrex/construction/sizing.py:78-95 | weights with equal risk contributions above the floors are left alone by the update |
| RiskParityRate.RiskParityConverges | src/mentisrex/construction/sizing.py:76-79 | for any number of names and a covariance without negative entries that has a parity portfolio clear of the floors, the run from equal weights converges to equal risk contributions: for every factor s > 1 all iterates from some one on have them within s of each other |
| RiskParityRate.RunShrinks | src/mentisrex/construction/sizing.py:85-95 | after k iterations the spread of the weights to the parity portfolio, and every ratio of two contributions, is at most 1 + (1 - delta)^k (s - 1), where delta is the least share of its own variance in a name's contribution |
| RiskParityRate.StepShrinks | src/mentisrex/construction/sizing.py:87-95 | one step takes the excess of the spread down by the factor 1 - delta; with delta = 0, which always serves, the spread never grows |
| RiskParityRate.RoomyClear | src/mentisrex/construction/sizing.py:93-94 | both floors stay out of play at any spread s for which the parity weights and contributions exceed s times the floors |
| RiskParityPair.StepLaw | src/mentisrex/construction/sizing.py:87-95 | for two names, with u the ratio of their stand-alone risks: (u'^2 - 1)(u + r) = r (u^2 - 1) |
| RiskParityPair.AwayIff | src/mentisrex/construction/sizing.py:87-95 | a step leads away from parity exactly when u is not 1 and u + r is less than the size of r |
| RiskParityPair.NeverAwayIff | src/mentisrex/construction/sizing.py:78-78 | over all volatilities and books clear of the floors no step leads away exactly when the correlation is not negative (or at most -1, where no book is clear) |
| RiskParityPair.RunRate | src/mentisrex/construction/sizing.py:85-95 | for r >= 0 the gap of u^2 to 1 shrinks over the whole run by r/(min(1, a/b) + r) a step |
| RiskParityPair.SwingsForEver | src/mentisrex/construction/sizing.py:85-95 | from the root's contract alone: the run on the covariance [[1, -0.8], [-0.8, 4]] is at [0.5, 0.5] with contributions 0.05 and 0.8 at every even iterate and at [0.8, 0.2] with 0.512 and 0.032 at every odd one |
| RiskParityPair.SwingingWellConditioned | src/mentisrex/construction/sizing.py:78-79 | that covariance has its quadratic form between 0.8 and 4.2 times the squared length |
| RiskParityRuns.SwingingNeverEven | src/mentisrex/construction/sizing.py:76-79 | and is never brought to equal contributions |
| RiskParityRuns.TiltLaw | src/mentisrex/construction/sizing.py:87-95 | for every correlation, with t the imbalance of the squared risks and h their overlap: t'(2h + r) = r t and 2h + r > 0 |
| RiskParityRuns.RunTilt | src/mentisrex/construction/sizing.py:85-95 | above the threshold -h of the start the imbalance shrinks over the whole run by abs(r)/(2h + r) a step |
| RiskParityRuns.NearerIff | src/mentisrex/construction/sizing.py:85-95 | while the floors are inactive the k-th iterate of a run from equal weights is nearer to parity than the start exactly when r(a^2 + b^2) + ab > 0 |
| RiskParityRuns.BelowThreshold | src/mentisrex/construction/sizing.py:93-94 | when that is negative some iterate of the run is at a floor |
| RiskParityRuns.ReachesParityIff | src/mentisrex/construction/sizing.py:76-79 | a run clear of the floors converges to equal contributions exactly when the volatilities are equal or r(a^2 + b^2) + ab > 0 |
| RiskParityRuns.PairParity | src/mentisrex/construction/sizing.py:11-13 | weights inverse to the volatilities give two names equal contributions at every correlation |
| RiskParityRuns.PairConverges | src/mentisrex/construction/sizing.py:76-79 | two names without negative correlation converge, floors included, when their volatilities are neither too small nor too far apart |
| RiskParitySigns.SignsKeepParityIff | src/mentisrex/construction/sizing.py:96-97 | signs keep equal contributions equal exactly when every name has the same joint risk with the names on the other side |
| RiskParitySigns.TwoStayEven | src/mentisrex/construction/sizing.py:96-97 | two names stay even whatever their signs |
| RiskParitySigns.ShortCarriesNoRisk | src/mentisrex/construction/sizing.py:96-97 | three alike names, one of them short: after any number of iterations the short one contributes nothing |
| Aggregation.Combine | src/mentisrex/construction/aggregation.py:53-70 | grouping and accumulation as they run give the blended alphas; what these are is stated in the rows of `AlphaValues` below |
| Aggregation.AlphaIsShareSum | src/mentisrex/construction/aggregation.py:66-70 | every symbol's alpha is the sum over sources of share times standard score, 0 where a source is silent; shares and scores themselves are `AlphaValues.ShareIs` and `AlphaValues.ZScoreIs` |
| AlphaValues.GroupsAre | src/mentisrex/construction/aggregation.py:55-57 | every group is all the signals of its source, in order, and none is empty |
| AlphaValues.ZScoreIs | src/mentisrex/construction/aggregation.py:74-83 | a name's standard score times the sample deviation of its source's scores is its score less their mean, mean and deviation given by sums over the signals |
| AlphaValues.ZScoreSilent | src/mentisrex/construction/aggregation.py:75-82 | a lone name and a source without dispersion score 0 |
| AlphaValues.ShareIs | src/mentisrex/construction/aggregation.py:59-64 | a source's share times the total weight of the present sources is its own weight, its weight itself when they total 0; without weights all shares are one over their number |
| AlphaValues.OneSourceAlpha | src/mentisrex/construction/aggregation.py:66-70 | with one source and no weights the alpha is that source's standard score |
| AlphaValues.OneSourceDistance | src/mentisrex/construction/aggregation.py:53-83 | then the difference of two alphas times the sample deviation is the difference of the scores: the higher score has the higher alpha |
| Aggregation.StandardScale | src/mentisrex/construction/aggregation.py:77-83 | standard scores keep the order of the scores and have sample variance 1 |
| Aggregation.AlphasSumToZero | src/mentisrex/construction/aggregation.py:53-83 | blended alphas sum to zero over all symbols, for all weights and degenerate sources, when no source speaks twice of a symbol |
| Aggregation.StandardInvariant | src/mentisrex/construction/aggregation.py:72-83 | standard scores do not notice a change of scale and origin, degenerate cases included |
| Aggregation.BlendInvariant | src/mentisrex/construction/aggregation.py:53-83 | replacing the scores of any one source by a*score + b with a > 0 changes no alpha |
| Aggregation.SharesSumToOneIff | src/mentisrex/construction/aggregation.py:59-64 | the shares of the present sources sum to 1 exactly when no weights are given or theirs do not cancel out, and to 0 otherwise |
| Aggregation.CancellingWeights | src/mentisrex/construction/aggregation.py:60-62 | two sources with weights 1 and -1 have shares that sum to 0 |
| Exposure.SectorGrosses | src/mentisrex/construction/exposure.py:54-58 | the accumulated dictionary holds the gross of every sector |
| Exposure.ScaleSectors | src/mentisrex/construction/exposure.py:59-63 | in-place rescaling gives the sector-scaled book although it reads grosses computed before |
| Exposure.ApplyLimits | src/mentisrex/construction/exposure.py:43-72 | the overlay as it runs equals its three stages; what they come to is stated in the rows below |
| Exposure.AllBudgetsHold | src/mentisrex/construction/exposure.py:14-15 | for every book and non-negative limits the result meets the asset, sector and gross budgets at once and keeps names, signs and order, enlarging no weight |
| Exposure.NoMoreThanNeeded | src/mentisrex/construction/exposure.py:50-72 | what is over a cap comes out of its stage exactly at the cap, and the rest is left alone |
| Exposure.OverlaidGross | src/mentisrex/construction/exposure.py:65-72 | from the limits themselves: below the correlation threshold the overlaid gross is the smaller of the gross after the sector stage and the cap, from it on of that gross and the cap times 1 less the correlation, and 0 at full correlation; the book stays in proportion |
| Exposure.SectorMeans | src/mentisrex/construction/exposure.py:56-56 | a name is in the sector the map gives it, and names without an entry share one |
| Exposure.EmptyMapIsNone | src/mentisrex/construction/exposure.py:54-54 | an empty sector map is none: only the asset cap applies before the gross budget |
| Exposure.UnchangedIffWithin | src/mentisrex/construction/exposure.py:43-72 | the overlay leaves a book alone exactly when it meets every budget |
| Exposure.Idempotent | src/mentisrex/construction/exposure.py:43-72 | applying the overlay twice is applying it once |
| Exposure.HaircutIff | src/mentisrex/construction/exposure.py:66-68 | the budget stays within the gross cap exactly when the haircut is not applied to a negative average correlation; how large it is is `OverlaidGross` |
| Leverage.GrossLeverageIff | src/mentisrex/construction/exposure.py:65-72 | without a sector map every book leaves the overlay within the gross cap exactly when the haircut is not applied to a negative average correlation, or nothing can be held |
| Leverage.SectoredLeverageIff | src/mentisrex/construction/exposure.py:53-72 | with a sector map also when what all its sectors can hold is within the gross cap, and only then |
| Leverage.WithinCapacity | src/mentisrex/construction/exposure.py:50-63 | after the sector stage no book over distinct names holds more than the map's capacity |
| Leverage.CapacityReached | src/mentisrex/construction/exposure.py:50-63 | and some book holds exactly that |
| Exposure.NegativeCorrelationExample | src/mentisrex/construction/exposure.py:66-71 | a book over the gross cap that the overlay returns unchanged |
| Exposure.SectorProportions | src/mentisrex/construction/exposure.py:24-25 | within a sector the overlay keeps the clipped weights in proportion |
| Orders.VerdictSound | src/mentisrex/risk/engine.py:76-117 | what passes is a positive part of the request and meets every cap unless it sells from a long; nothing passes a tripped kill switch; and no more is held back than the tightest cap asks |
| Orders.KillSwitchIff | src/mentisrex/risk/engine.py:80-97 | the switch is on after a check exactly when it was on, or with price and NAV positive the day's loss reaches its limit of the start-of-day equity or the drawdown is beyond the halt; nothing passes then |
| Orders.VerdictExact | src/mentisrex/risk/engine.py:99-117 | otherwise a sale from a long passes whole, and of any other order the most that fits the name's share of NAV, the leverage, the share of volume and the loss down to the stop, in whole shares where it is cut; it is rejected when not one share fits |
| Orders.CapsInMoney | src/mentisrex/risk/engine.py:127-147 | an order that adds exposure keeps its name within its share of NAV and the book within the leverage limit |
| Orders.CapsHoldIff | src/mentisrex/risk/engine.py:99-101 | orders of every size respect the caps exactly when the order does not sell from a long position |
| Orders.FlipPassesUncapped | src/mentisrex/risk/engine.py:121-125 | a sell that turns a long far into a short passes unclamped |
| Orders.CoveringRejected | src/mentisrex/risk/engine.py:99-101 | a buy that covers part of a short is rejected for the size of that short |
| Orders.TowardsZeroPassesIff | src/mentisrex/risk/engine.py:99-101 | a trade towards zero passes whole under all limits that are not breached exactly when it sells from a long |
| Orders.TargetBounds | src/mentisrex/construction/builder.py:132-132 | the target has the sign of NAV times the weight and is the largest whole number of shares whose value stays within it |
| Orders.TargetsWithinBudget | src/mentisrex/construction/builder.py:78-85 | the summed value of the share targets of any overlaid book stays within NAV times the gross budget |
| OrderBatch.BatchLeverageIff | src/mentisrex/construction/builder.py:128-163 | from an account that holds nothing the batch of orders respects the leverage limit at all prices exactly when the shares of NAV its orders can reach add up to no more than the limit |
| OrderBatch.BatchWithin | src/mentisrex/construction/builder.py:128-163 | a batch is worth no more than NAV times the sum of these shares |
| OrderBatch.BatchExceeds | src/mentisrex/construction/builder.py:147-151 | two approved orders of 80 percent of NAV each under a leverage limit of 1 |
| OrderBatch.BatchAddsWithin | src/mentisrex/construction/builder.py:128-163 | from any account, with any volumes, halted or not, the orders of a batch add no more exposure than the rooms of its names: an order's value within both limits, for a sell from a long the excess of its target over what is held |
| OrderBatch.BatchKeepsLeverage | src/mentisrex/construction/builder.py:147-151 | so gross leverage holds after the batch when the exposure held and these rooms together are within the limit |
| Orders.MakeOrders | src/mentisrex/construction/builder.py:119-163 | the order loop with its skips, rejections and clamps gives the specified orders, rejections and kill-switch state |
| Orders.OrdersMoveTowardsTargets | src/mentisrex/construction/builder.py:128-163 | every order comes from a name of the book, moves its position towards the target and not past it, and reaches it when approved |
| Orders.OrderFits | src/mentisrex/construction/builder.py:135-163 | every order that does not sell from a long fits the limits at the name's own price and daily volume |
| Orders.EveryNameResolved | src/mentisrex/construction/builder.py:128-163 | unless the batch halts each priced name off target gets its order, and is rejected only where the engine rejects its change |
| Orders.BatchHaltIff | src/mentisrex/construction/builder.py:127-150 | a batch ends halted exactly when it began so or the account is beyond its drawdown, or allowed no daily loss, and some priced name is off target; then it places no order |
| Orders.OneOrderPerName | src/mentisrex/construction/builder.py:128-163 | no name gets two orders |
| Orders.MentionedIffOffTarget | src/mentisrex/construction/builder.py:128-150 | a name is ordered or rejected exactly when it is in the book, has a positive price and is off target |
| Portfolio.BoughtBooks | src/mentisrex/backtesting/portfolio/position.py:51-70 | a buy, also one that crosses zero, changes realised profit less cost by exactly what was paid |
| Portfolio.SoldBooks | src/mentisrex/backtesting/portfolio/position.py:72-91 | a sell changes realised profit less cost by exactly what was received |
| Portfolio.BoughtSplit | src/mentisrex/backtesting/portfolio/position.py:56-70 | what a buy realises and what its average cost becomes: covering part of a short, covering it all and going long, or adding to a long |
| Portfolio.SoldSplit | src/mentisrex/backtesting/portfolio/position.py:77-91 | likewise for a sell from a long, through zero, or from a short |
| Portfolio.PartsBuyTheWhole | src/mentisrex/backtesting/portfolio/position.py:51-70 | buying in two parts at one price leaves the whole position, realised profit and average cost included, as buying at once, on whichever side of zero the first part ends |
| Portfolio.PartsSellTheWhole | src/mentisrex/backtesting/portfolio/position.py:72-91 | and so does selling |
| Portfolio.FillKeepsBooks | src/mentisrex/backtesting/portfolio/manager.py:36-45 | a fill changes cash by exactly what it changes the books by, less the commission, and only its own position |
| Portfolio.QuietChanges | src/mentisrex/backtesting/portfolio/manager.py:47-54 | marking to market, first use of a position and raising the peak leave cash, books and holdings alone |
| Portfolio.ProfitIdentity | src/mentisrex/backtesting/portfolio/state.py:54-72 | gain of the account = realised + unrealised profit - commissions |
| Portfolio.AccountWorth | src/mentisrex/backtesting/portfolio/state.py:54-76 | value is cash plus the positions at their last prices, exposure their sizes at these prices |
| Portfolio.PeakRaised | src/mentisrex/backtesting/portfolio/state.py:106-110 | the high-water mark becomes the larger of itself and the value, and nothing else changes |
| Portfolio.DrawdownBeyondIff | src/mentisrex/backtesting/portfolio/state.py:96-104 | the drawdown is beyond h exactly when the value is below 1 - h of a positive peak; below a peak of zero there is none |
| Backtest.BasePriceSound | src/mentisrex/backtesting/execution/simulator.py:80-108 | an order trades on a bar exactly when the bar's range reaches its limit or stop: a market order at the open, a limit order at the better of open and limit, a stop order at the worse of open and stop, always inside the range of a bar whose open is |
| Backtest.FillPositive | src/mentisrex/backtesting/execution/simulator.py:110-117 | a fill has a positive quantity of at most the order's, with the order's number and side and the bar's symbol and time |
| Backtest.FillQuantityIs | src/mentisrex/backtesting/execution/simulator.py:110-117 | the smaller of the order and the allowed share of the bar's volume, of 100 on a bar without volume |
| Executions.FillsExecuteOrders | src/mentisrex/backtesting/execution/simulator.py:38-78 | over every run each fill executes what the fills before it left of its market order, on the bar it names: at the price and commission the costs give for that remainder at the bar's open, in the largest quantity the volume allows |
| Executions.RunMeetsPending | src/mentisrex/backtesting/engine.py:126-160 | whatever the run so far, the next bar executes every pending order of its symbol and leaves the others pending as they are |
| Backtest.SizeOrderHitsTarget | src/mentisrex/backtesting/portfolio/manager.py:56-103 | a sized order takes the position exactly to its target; none is made only without a price or on target |
| Backtest.TargetIs | src/mentisrex/backtesting/portfolio/manager.py:68-90 | the target of a flat signal is 0; of another the largest whole number of shares worth no more than account value times position limit times strength, long or short as the signal says |
| Timing.SignalSizes | src/mentisrex/backtesting/engine.py:228-231 | a signal queues one market order that takes the position to that target, and none without a price or on target |
| Timing.OrderScreened | src/mentisrex/backtesting/engine.py:233-240 | an order event goes on record, accepted and pending exactly when the account is not and was not halted and its position and leverage limits hold, all in money; a halt is for good |
| Backtest.RiskCheckIff | src/mentisrex/backtesting/risk/engine.py:51-95 | the halt trips exactly when the value is below 1 less the limit of the peak and never clears; an order passes exactly when there is no halt, it closes or is worth at most twice the position limit, and as a buy leaves gross leverage in its limit |
| Backtest.HandledProgress | src/mentisrex/backtesting/engine.py:177-187 | handling an event lowers the number of queued market events, or keeps it and lowers the work of signals and orders |
| Backtest.Drained | src/mentisrex/backtesting/engine.py:176-187 | the drain loop terminates for every queue and leaves it empty |
| BacktestEngine.Engine.constructor | src/mentisrex/backtesting/engine.py:70-85 | a new engine is in the initial state |
| BacktestEngine.Engine.OnFill | src/mentisrex/backtesting/engine.py:200-203 | updates account, order record and fills as the state machine does |
| BacktestEngine.Engine.OnMarket | src/mentisrex/backtesting/engine.py:213-226 | marks, remembers the bar, calls the strategy and queues its signals |
| BacktestEngine.Engine.OnSignal | src/mentisrex/backtesting/engine.py:228-231 | queues at most one sized order |
| BacktestEngine.Engine.OnOrder | src/mentisrex/backtesting/engine.py:233-240 | submits and pends, or rejects, after the risk check |
| BacktestEngine.Engine.SweepPending | src/mentisrex/backtesting/engine.py:128-160 | the loop over pending orders queues fills and keeps remainders |
| BacktestEngine.Engine.Drain | src/mentisrex/backtesting/engine.py:176-187 | the while loop terminates and gives the drained state |
| BacktestEngine.Engine.ProcessBar | src/mentisrex/backtesting/engine.py:126-196 | one bar as the state machine has it |
| BacktestEngine.Engine.RunFeed | src/mentisrex/backtesting/engine.py:103-115 | the bar loop with its skip and two breaks gives the run of the state machine |
| Conservation.HandledKeeps | src/mentisrex/backtesting/engine.py:177-187 | every event keeps quantities, numbering, links, statuses, average prices and books |
| Conservation.BarKeeps | src/mentisrex/backtesting/engine.py:126-196 | so does every bar, partial fills included |
| Conservation.OrderQuantityConserved | src/mentisrex/backtesting/engine.py:126-240 | over every run: each order number is on record once; submitted = filled + pending; the record's filled quantity, average price and status are true; a rejected order has no fills and no remainder |
| Conservation.RunRecords | src/mentisrex/backtesting/oms/manager.py:17-39 | over the rest of any run an order on record stays as it was submitted, and a rejected one stays rejected |
| Conservation.ProfitAndLoss | src/mentisrex/backtesting/engine.py:200-203 | over every run: gain = realised + unrealised profit - commissions, and every position is the signed sum of its fills |
| Timing.HandledDuring | src/mentisrex/backtesting/events/base.py:30-40 | while a bar is processed the queue stays in popping order, holds only this bar's fills and at most one market event |
| Timing.FillsBeforeStrategy | src/mentisrex/backtesting/engine.py:5-16 | when the strategy is called on a bar no fill of the bar is left in the queue |
| Timing.EventOrder | src/mentisrex/backtesting/events/base.py:30-36 | events go by time, within one time fills, then the bar, then signals, then orders, and among events of one kind by creation |
| Timing.InsertedAt | src/mentisrex/backtesting/events/base.py:30-36 | a pushed event pops after every event not after it and before all others |
| Timing.StrategySees | src/mentisrex/backtesting/engine.py:213-226 | on a bar the strategy is shown the account marked at the close and histories that end with this bar, and just the signals it answers with are queued |
| Timing.BarBetween | src/mentisrex/backtesting/engine.py:126-196 | after a bar its fills are from it, histories include it and exactly one equity point was added, at its time |
| Timing.HistoriesAreLastBars | src/mentisrex/backtesting/engine.py:213-220 | after every run each symbol's history is exactly its last `max_history_bars` processed bars |
| Timing.NoSameBarExecution | src/mentisrex/backtesting/engine.py:18-22 | every fill of every run is from a bar of its order's own symbol strictly later in the feed than the bar the order was created on |
| Timing.StrictlyLaterInTime | src/mentisrex/backtesting/engine.py:130-136 | and strictly later in time, for strategies that signal the current bar's symbol on feeds with strictly increasing timestamps per symbol |
| Timing.OwnSymbolLater | src/mentisrex/backtesting/engine.py:130-136 | for any strategy the fill of an order for the symbol of its creation bar is strictly later in time |
| Timing.RunSplits | src/mentisrex/backtesting/engine.py:103-115 | a run on a longer feed is the run on its first part, taken up where that left off unless it stopped |
| Timing.RunExtends | src/mentisrex/backtesting/engine.py:103-115 | extending a feed extends fills, equity and processed bars and changes none of them |
| Timing.NoLookAhead | src/mentisrex/backtesting/engine.py:18-22 | after the first i bars runs on feeds that share them are in one state; each ends there if it stopped and otherwise goes on from it, so fills, equity and processed bars so far stay |
| Timing.ProcessedInRange | src/mentisrex/backtesting/engine.py:103-115 | on a date-sorted feed the processed bars are a prefix of the bars in range, all of them unless the run is halted, with one equity point each at its time |
| Timing.ProcessedUntilLate | src/mentisrex/backtesting/engine.py:103-115 | on any feed they are the bars in range before the first one after the end date, cut short only by a halt |
| Timing.NoneAfterHalt | src/mentisrex/backtesting/engine.py:103-115 | before every processed bar the run was not halted, and running on the processed bars alone is the same run |
| Marks.EquityIsMarkedToMarket | src/mentisrex/backtesting/engine.py:189-215 | over every run: positions are valued at the last close of their symbol, the last equity point is the account's value, and no equity point lies above the high-water mark |
| Marks.PeakIsHighest | src/mentisrex/backtesting/portfolio/state.py:96-110 | over every run the high-water mark is exactly the largest of the start capital and the equity points, although checks raise it in the middle of bars |
| Marks.BarMarked | src/mentisrex/backtesting/engine.py:189-196 | after every bar its equity point is the account's value with every position at its last close |
| CrossSymbol.SameTimestampExecution | src/mentisrex/backtesting/engine.py:129-137 | a run in which a cross-symbol signal is filled at the timestamp at which it was given |
| Lateness.LaterIff | src/mentisrex/backtesting/engine.py:129-160 | on a feed with strictly increasing timestamps per symbol every fill of every strategy is strictly later in time than its order's bar exactly when no bar is followed by a bar of another, already quoted, symbol that is no later in time |
| Lateness.RunPriced | src/mentisrex/backtesting/portfolio/manager.py:61-66 | over every run every order on record was for a symbol with a positive close when it was created |
| Lateness.WaitBar | src/mentisrex/backtesting/engine.py:134-136 | a pending order survives bars of other symbols unchanged |
| Pipeline.ByTimeSorts | src/mentisrex/features/pipeline.py:58-58 | ordering the bars keeps them all and puts them in order |
| Pipeline.ByTimeStable | src/mentisrex/features/pipeline.py:58-58 | and bars of one timestamp keep their order |
| Pipeline.AlignMarket | src/mentisrex/features/pipeline.py:122-136 | the list built is one close per bar or nothing; which closes and when is `AlignedCloses` |
| Pipeline.AlignedCloses | src/mentisrex/features/pipeline.py:122-136 | a benchmark is aligned exactly when it has an entry at every bar's timestamp, and then each bar gets the close of the last entry with its timestamp |
| Pipeline.WindowContents | src/mentisrex/features/pipeline.py:71-79 | a window ends at its own bar and holds, column by column, that bar and the ones just before it |
| Pipeline.WindowLength | src/mentisrex/features/pipeline.py:47-79 | a window holds as many bars as there are, up to one more than the longest look-back of any feature (of 1 without features) |
| Pipeline.EvaluateIff | src/mentisrex/features/pipeline.py:103-116 | a feature has the value x exactly when there is enough history and the feature computes x |
| Pipeline.FullRows | src/mentisrex/features/pipeline.py:68-82 | a full run has the features' rows bar by bar: symbol, name, version, timestamp, and the value on the bar's window |
| Pipeline.UncachedIsPlain | src/mentisrex/features/pipeline.py:98-120 | with the cache off a call gives the plain rows whatever the cache holds, and leaves it alone |
| Pipeline.FeaturePipeline.constructor | src/mentisrex/features/pipeline.py:39-48 | a new pipeline has an empty cache and the window bound of its features |
| Pipeline.FeaturePipeline.One | src/mentisrex/features/pipeline.py:98-120 | a cached value is returned as it is; otherwise the gate, the call and error isolation give the value, which is remembered |
| Pipeline.FeaturePipeline.ComputeSymbol | src/mentisrex/features/pipeline.py:50-82 | rows and cache after a call, for the nested loops with their skip |
| Pipeline.FeaturePipeline.ComputeBatch | src/mentisrex/features/pipeline.py:84-94 | symbols in order through one cache |
| FeatureCache.CacheTransparent | src/mentisrex/features/pipeline.py:98-120 | in a session whose histories only grow at the end, with distinct feature keys and the same benchmark on shared bars, every call gets exactly the rows of plain recomputation |
| FeatureCache.BatchTransparent | src/mentisrex/features/pipeline.py:84-94 | a batch that continues an orderly session gets the rows of plain recomputation, symbol after symbol, and leaves the cache its calls one by one would |
| FeatureCache.FreshBatchTransparent | src/mentisrex/features/pipeline.py:84-94 | on a fresh pipeline a batch over a dictionary of ordered histories always does, whatever the benchmark and `since` |
| FeatureCache.AllRowsCached | src/mentisrex/features/pipeline.py:98-120 | a call answers one key with one value and never changes a cached value |
| FeatureCache.BenchmarkIff | src/mentisrex/features/pipeline.py:122-136 | for two calls on a growing history, incremental or not, every pipeline answers the second faithfully exactly when both see the same benchmark on the shared bars or one of them computes none of these |
| FeatureCache.DistinctTimesIff | src/mentisrex/features/pipeline.py:98-101 | on a fresh cache every pipeline answers a call, with bars in any order and with or without `since`, faithfully exactly when no two bars it computes share a timestamp |
| FeatureWindows.SinceSelects | src/mentisrex/features/pipeline.py:69-70 | `since` gives exactly the full run's rows later than t |
| FeatureWindows.NoLookAhead | src/mentisrex/features/pipeline.py:4-5 | appended bars leave the rows of earlier ones as they were, for every pipeline, exactly when both histories see the same benchmark on these or the call computes none of them |
| FeatureWindows.IncrementalIff | src/mentisrex/features/pipeline.py:7-8 | full run on the old history plus incremental run on the extended one equals a full run for every pipeline exactly when the benchmark is the same on the old bars |
| FeatureWindows.CoverageLost | src/mentisrex/features/pipeline.py:126-135 | with one benchmark for both runs that condition fails exactly when a later bar is the first one not covered |
| FeatureWindows.WindowSuffices | src/mentisrex/features/pipeline.py:47-48 | the bounded window opens the history gate exactly when the whole history would, and gives any feature settled by its last bars the same value |
| FeatureWindows.FeatureSetIrrelevant | src/mentisrex/features/pipeline.py:47-48 | such a feature has the same value in every pipeline it is registered in |
| FeatureWindows.FeatureSetIff | src/mentisrex/features/pipeline.py:47-48 | a feature has one value in all pipelines, at every bar of every history, exactly when its value is settled by its own look-back |
| FeatureWindows.EmaSetIff | src/mentisrex/features/registry.py:200-215 | for an exponential average that is so exactly when its span is 1 and its look-back reaches the bar itself |
| FeatureWindows.WindowStartMatters | src/mentisrex/features/registry.py:200-215 | an exponential average changes when another feature with a longer look-back is registered |
| FeatureWindows.Ema | src/mentisrex/features/registry.py:200-215 | the loop computes the mean-seeded average, none for fewer than `span` values |
| FeatureWindows.EmaRecurrence | src/mentisrex/features/registry.py:200-215 | none before `span` values, their plain mean at `span`, and each further value x moves the average 2/(span + 1) of the way to x |
| FeatureWindows.SeedDecays | src/mentisrex/features/registry.py:203-206 | the influence of the seed decays geometrically |
| FeatureWindows.StartDecays | src/mentisrex/features/registry.py:200-215 | the averages of a history and of its window differ by their difference where the window's seed ends times 1 - k to the number of later values |
| FeatureWindows.EmaBetween | src/mentisrex/features/registry.py:200-215 | the average stays within the bounds of the values |
| Similarity.FullSimilarityIff | src/mentisrex/hypothesis/deduplication.py:67-72 | similarity is 1 exactly for equal, non-empty token sets |
| Similarity.JaccardCounts | src/mentisrex/hypothesis/deduplication.py:67-72 | similarity times the number of all tokens is the number of shared ones, 0 with an empty set; it is at least t/10 exactly when t tenths are shared |
| Similarity.Triangle | src/mentisrex/hypothesis/deduplication.py:67-72 | 1 - Jaccard obeys the triangle inequality, empty sets included |
| Similarity.NearDuplicatesAreVariations | src/mentisrex/hypothesis/deduplication.py:15-24 | the thresholds fit: two near duplicates of one statement are at least variations of each other |
| Admission.CheckForm | src/mentisrex/hypothesis/quality.py:28-41 | the first four checks name what fails, in order |
| Admission.CheckQuality | src/mentisrex/hypothesis/quality.py:26-64 | all checks run, every failed one is named in order, and a hypothesis passes exactly when none failed |
| Admission.ComplaintsAre | src/mentisrex/hypothesis/quality.py:26-64 | which condition each complaint stands for, thresholds included, and the order of the list |
| Admission.ContainsIff | src/mentisrex/hypothesis/quality.py:34-34 | a text contains a part exactly when the part is at some position in it |
| Admission.CheckDuplicates | src/mentisrex/hypothesis/deduplication.py:34-64 | the loop, the sort and the tiers give the specified verdict |
| Admission.JudgedSound | src/mentisrex/hypothesis/deduplication.py:20-64 | the tier is decided by the most similar other entry; the listed identifiers are those of all similar entries, a most similar one first |
| Admission.TiersAre | src/mentisrex/hypothesis/deduplication.py:46-64 | in tokens: unique while no other entry shares four tenths, a near duplicate from seven tenths on, a duplicate when all are shared |
| Admission.MaxSimilarityIs | src/mentisrex/hypothesis/deduplication.py:53-64 | the similarity reported is the largest to any other entry, 0 when unique |
| Admission.EachListed | src/mentisrex/hypothesis/deduplication.py:46-58 | every similar entry is listed as often as it is there |
| Admission.ListedInOrder | src/mentisrex/hypothesis/deduplication.py:56-58 | of two listed entries the first is the more similar one, or as similar and not under the smaller identifier |
| Admission.LessIff | src/mentisrex/hypothesis/deduplication.py:56-56 | identifiers compare by their first difference, or by length |
| Admission.SortedMatches | src/mentisrex/hypothesis/deduplication.py:56-58 | the sorted matches are exactly the similar entries, by similarity and identifier from the top |
| AdmissionLoop.HypothesisStore.Insert | src/mentisrex/hypothesis/store.py:82-94 | a row is added exactly when its identifier is new |
| AdmissionLoop.HypothesisStore.AllStatements | src/mentisrex/hypothesis/store.py:208-214 | identifier and statement of every row that is not rejected |
| AdmissionLoop.Generate | scripts/generate_hypotheses.py:97-125 | the nested loops over papers and candidates give the specified store, list and counters |
| AdmissionLoop.DuplicateHasTwin | scripts/generate_hypotheses.py:112-118 | a duplicate has another entry with exactly its token set, and the rejection names one |
| AdmissionLoop.AdmittedIff | scripts/generate_hypotheses.py:104-125 | a candidate is admitted exactly when it passes every check, its identifier is new and no accepted entry has its token set |
| AdmissionLoop.RefusedIff | scripts/generate_hypotheses.py:104-118 | a candidate that fails or has a twin is counted and stored as rejected |
| AdmissionLoop.RowKept | scripts/generate_hypotheses.py:104-125 | under a new identifier the stored row is the candidate, rejected with its complaints or its twin, or admitted with the similar entries noted on a near duplicate; near duplicates are counted |
| AdmissionLoop.EveryCandidateStored | scripts/generate_hypotheses.py:97-125 | after any run the store holds every candidate's identifier, keeps what it held and has gained nothing but candidates |
| AdmissionLoop.AcceptedSetDuplicateFree | scripts/generate_hypotheses.py:97-125 | after any run the list mirrors the unrejected rows, and every admitted entry has at least three content words and shares its token set with no other |
| KnowledgeGraph.Store.Upsert | src/mentisrex/knowledge/graph.py:166-213 | insert at version 1, or snapshot to the history and update |
| KnowledgeGraph.Store.Connect | src/mentisrex/knowledge/graph.py:215-234 | insert an edge between stored nodes, or update the properties of the one that is there |
| KnowledgeGraph.Store.Embed | src/mentisrex/knowledge/graph.py:568-579 | stores an embedding exactly when the node exists and its text can be embedded |
| KnowledgeGraph.Store.Traverse | src/mentisrex/knowledge/graph.py:294-336 | as written the search returns the ends of the root's edges, whatever the depth |
| KnowledgeGraph.TouchingEach | src/mentisrex/knowledge/graph.py:305-325 | the edges collected are those with an end in the frontier, each as often as it is there |
| KnowledgeGraph.VersionLaw | src/mentisrex/knowledge/graph.py:176-213 | over any interleaving of operations a node stands at the version its upserts make, with history rows exactly 1 to that version less one, each holding what its own upsert wrote and the author, time and reason of the next |
| KnowledgeGraph.SnapshotIsPast | src/mentisrex/knowledge/graph.py:182-199 | every history row of a run is the whole node, embedding included, just before the upsert that replaced it |
| KnowledgeGraph.EmbeddingTextIs | src/mentisrex/knowledge/graph.py:573-573 | the text embedded is title, blank, corpus, or the one that is not empty |
| KnowledgeGraph.EmbeddingLaw | src/mentisrex/knowledge/graph.py:568-579 | over any run a node's embedding is the vector of the text it had at its last successful embedding, and there is none without one |
| KnowledgeGraph.EmbeddingCurrentIff | src/mentisrex/knowledge/graph.py:200-205 | it is current for every embedder exactly when the node was not upserted since or its latest upsert has the text it was made from |
| KnowledgeGraph.UpsertKeepsCurrentIff | src/mentisrex/knowledge/graph.py:200-205 | one upsert keeps the embedding, and keeps it current exactly when it does not change the text |
| KnowledgeGraph.StaleEmbedding | src/mentisrex/knowledge/graph.py:200-205 | a node whose embedding is that of a text it no longer has |
| KnowledgeGraph.HistoryGrows | src/mentisrex/knowledge/graph.py:182-205 | no upsert is refused; each adds the state just before it to the history and keeps the embedding; no history row ever changes |
| KnowledgeGraph.EdgeUpserted | src/mentisrex/knowledge/graph.py:226-234 | an edge upsert between stored nodes leaves one edge for its triple with the new properties and its first author and time, and every other edge alone; without both nodes nothing changes |
| KnowledgeGraph.RunGrounded | src/mentisrex/knowledge/graph.py:45-54 | every edge joins stored nodes and no two share source, target and relation |
| KnowledgeGraph.TraverseIsBallIff | src/mentisrex/knowledge/graph.py:294-336 | the result is the breadth-first ball of the asked depth exactly when the root has an edge and, beyond depth one, no edge leaves its neighbourhood |
| KnowledgeGraph.TraverseStopsShort | src/mentisrex/knowledge/graph.py:334-334 | a chain of two edges searched two hops deep lacks its far end |
| KnowledgeGraph.LoneRootMissing | src/mentisrex/knowledge/graph.py:317-336 | a root without edges is not found |
| Roadmap.Runtime | src/mentisrex/director/director.py:216-224 | an experiment takes 5 (1 + 4 f)(1 + features / 5)(1 + assets / 3) minutes with at least one asset class, four times that for learning, so at least five |
| Roadmap.ByPriorityDescends | src/mentisrex/director/director.py:263-263 | the ranking has priorities from the top |
| Roadmap.RankedList | src/mentisrex/director/director.py:263-318 | the list queues are packed from: every actionable hypothesis as often as it is there, highest priority first, those of one priority in their given order |
| Roadmap.Pack | src/mentisrex/director/director.py:322-337 | the greedy loop takes the longest prefix that fits the budget, or just its overflowing head |
| Roadmap.QueueUnique | src/mentisrex/director/director.py:322-337 | a budget settles its queue |
| Roadmap.QueuesNest | src/mentisrex/director/director.py:50-56 | a larger budget has the longer queue |
| Roadmap.Plan | src/mentisrex/director/director.py:314-341 | daily, weekly, monthly and quarterly queues are prefixes of one list, each within the next; a day holds at most 96 experiments |
| Roadmap.FiveMinuteQueues | src/mentisrex/director/director.py:50-56 | what the budgets hold in five-minute experiments: 96, 480, 1920 and 200 million |
| Roadmap.NothingBetterLeftOut | src/mentisrex/director/director.py:314-338 | whatever is queued has at least the priority of every actionable hypothesis left out |
| Roadmap.CountCategories | src/mentisrex/director/director.py:100-106 | every category is counted as often as it occurs, and the counts sum to the total |
| Roadmap.OverResearchedIff | src/mentisrex/director/director.py:270-277 | a category is reported exactly when its count is more than three tenths of all, of 1 at least |
| Roadmap.AtMostThree | src/mentisrex/director/director.py:268-280 | at most three categories can be over-researched at once |

## Left out

- Floating-point rounding, `round` and price quantisation: amounts are reals, so identities are exact where the program's are up to rounding.
- Square roots and eigenvalues: `sqrt` is a parameter known by what it promises, and the largest eigenvalue is a parameter `lam` whose bound on the quadratic form is a premise of the solver's rate.
- `min_variance`, `max_sharpe`, `sample_covariance`, `condition_number`: they rest on the pseudo-inverse of the linear-algebra library.
- Empty inputs of the solver: `ConstrainedMinVariance` and `ProjectBoxSimplex` take at least one name; for none the program fails inside numpy.
- `build` and `_weights` as dispatchers, and `_avg_abs_correlation`: the overlay and the order loop are modelled for whatever weights and average correlation they are given.
- ApplyLimits: takes a non-negative sector cap; with a negative one the program can divide by zero.
- BatchLeverageIff: starts from an account that holds nothing and without volume limits; for other accounts the sufficient half is `BatchKeepsLeverage`.
- RiskParityConverges: converges towards a given parity portfolio; that every covariance without negative entries has one is shown for two names only. For more than two names with negative entries nothing is stated.
- ReachesParityIff: takes a run whose floors are inactive throughout; what a run does after a floor has been active is not stated.
- Spread, slippage and commission formulas: a parameter that gives price and commission of a quantity at a base price.
- The strategy is a function of the histories, the account, the time and the bar, which is what its base class asks of it; aliasing of the live history and portfolio objects it is handed is not modelled, nor are `on_start` and `on_end`.
- Order numbers, fill numbers and signal numbers stand for random identifiers and one global counter; a bar number on orders and fills is bookkeeping of the model.
- The event heap is a list kept in popping order.
- Reports, metrics, logging, the data feeds, cancelled orders and resetting a halt.
- Feature functions themselves, other than the exponential average; a feature is any function of a window that may also raise.
- Ema: takes a span of at least one.
- Case folding, trimming, splitting and stop words: parameters of the admission model; the same token function serves both checks, as in the program.
- Generating candidates from papers, version snapshots of hypotheses and hooks into the graph: candidates are given, as drafts.
- `all_statements` returns rows in order of insertion; the database promises no order.
- SQL, JSON and connections: tables are maps and sequences, and each statement either takes effect or leaves the tables alone. Rows found by traversal are a set.
- Edge identifiers are hashes of source, target and relation joined with colons; distinct triples are taken to have distinct identifiers.
- The order of the over-researched report, which goes by rounded share.
- Full-text and semantic search, discovery queries, scoring, the decision rules, and the remaining gap reports: they would add only easy members.
