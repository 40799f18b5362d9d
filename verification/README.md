# Verified models of the memory-ablation benchmark harness

A Dafny model of the parts of the benchmark harness that keep state under a rule, or that must agree
with something simpler. Check it with `dafny verify dfyconfig.toml`. Floats are `real`; the clock, random
draws, the upstream, the servers and the incomplete beta function are parameters, each with its contract
written out where it is used.

| files | what they model |
|---|---|
| `Pricing`, `Ledger`, `LedgerRuns` | the proxy's budget authority: prices, reserve/settle/retain, the checkpoint, and every interleaving of threads, failing writes, crashes, restarts and upstream charges |
| `DomTree`, `DomList`, `DomMorph` | the in-place DOM morph over a mutable tree of nodes, against the tree it must produce |
| `Binomial`, `ExactTests` | the exact sign and McNemar tests and the pre-registered decision rule |
| `Quantile`, `Percentiles`, `Icc` | beta-quantile bisection and Clopper-Pearson, percentiles and the cluster bootstrap, ANOVA and intra-class correlation |
| `Feed`, `FeedStream` | the event feed painted incrementally, and the stream that fills its window |
| `RunStart` | the arm-then-confirm protocol with overlapping previews, against the control server's token |
| `ServeMetrics`, `ServeWait` | transcript metrics and their classification; retried reads and the busy/idle waits |
| `Scorecard`, `Names` | model diffs and the integrity gate |
| `Ordering` | session schedules |
| `Folds`, `RealArith`, `Text`, `Wrappers` | shared helpers |

Code that works step by step is a class or a method with loops (`BudgetLedger`, `Node`, `Dashboard`, `RunControl`,
`ServeClient`, `Scorecard`, the counting and bisection loops). Each is tied to a function of its inputs or its
old state, and the laws are proved about those functions, over all inputs and all runs.

## What the proofs found

- A reservation under a request id that is still in flight replaces the earlier hold. All holds survive exactly when the id holds nothing (`ReserveKeepsEarlierHolds`).
- The reservation relies on the upstream honouring the cached prefix. Whatever the cache does, it covers every bill inside the prompt and completion bounds if and only if it covers a full miss, which is known before the call (`CoversAnyCache`); with a discounted prefix it need not (`CacheMissExceeds`). The source says so and relies on the accrued total.
- The keyed morph never compares tags: a row whose tag changes under the same key keeps its old tag. The result shows the template exactly when matched tags agree (`MorphKidsAgree`, `KeyedPathKeepsOldTag`). Either way a second patch makes no call (`PatchTwice`).
- An old child stays a child if and only if some row is matched with it (`PatchChildren`), and then keeps its node, as do all matched rows below it (`Patch`). In a list matched by position, `data-preserve` therefore protects a node only while it keeps its place: a panel inserted before the last one makes that a fresh copy (`ShiftedPanelIsRebuilt`). The feed then shows its window again exactly when the paint is stale anyway or every row is new (`SwappedBoxAgrees`).
- "Any parameter change disarms": a client stays armed for exactly what it has selected if and only if no preview arms after its parameters were changed (`MatchesExactlyInTime`), and one in flight can (`ArmedForAnother`). The server then refuses the mismatched token. That protection is exact too: tokens determine the parameters, and every start the server accepts was shown, if and only if no model on offer goes on from another of the same substrate with `|arm=on|org=` (`TokensExact`, `ShownExactly`).
- "Not scored never counts" holds for ON cells only. The scored flag of an OFF cell is never read (`GateExactly`).
- The loop guard is documented as checked first. The code takes the first text with either signature, so an earlier finalize-timeout text wins (`GuardAbortMeans`, `FinalizeTextWins`), and a guard text after eight captured texts is never seen (`EarlierSignatureStays`).
- The last guard of the intra-class correlation never fires: once the first three pass, the denominator is positive (`WellFounded`).
- A derived bill leaves out the fees. It is a settlement the budget theorem allows exactly when it covers what was charged (`PricedSettlementPermitted`).
- Significance implies direction for every level up to 1/2 and for no level above it (`HalfIsTheExactLevel`).

## Model

| member | source | states |
|---|---|---|
| Pricing.ReservationDominates | wevibe_bench/adapters/openrouter_proxy.py:420-520 | usage inside the bounds is billed, even with fees and safety factor added, at most what was reserved for it |
| Pricing.ReservationAttained | wevibe_bench/adapters/openrouter_proxy.py:438-452 | the reservation is the least such bound, billed exactly by some usage inside the bounds, if and only if the reserved prefix is priced as it is billed or is empty |
| Pricing.CoversAnyCache | wevibe_bench/adapters/openrouter_proxy.py:420-520 | every usage inside the prompt and completion bounds, whatever its cached count, is billed at most the reservation if and only if a full miss at the bounds is |
| Pricing.CacheMissExceeds | wevibe_bench/adapters/openrouter_proxy.py:429-436 | a price row for which a full miss is billed more than the reservation |
| Pricing.ReservesOrRefuses | wevibe_bench/adapters/openrouter_proxy.py:420-520 | a profile is refused, as pricing_missing, if and only if it has no prices; otherwise what is reserved covers every bill within the bounds, fees included |
| Pricing.SplitPrompt | wevibe_bench/adapters/openrouter_proxy.py:485-498 | cached, written and plain tokens partition the prompt, each kind filled before the next |
| Pricing.BillIs | wevibe_bench/adapters/openrouter_proxy.py:465-520 | consistent usage is billed each kind of token at its own rate per million, a missing cache rate being the input rate |
| Pricing.BillClamps | wevibe_bench/adapters/openrouter_proxy.py:465-520 | any other usage is billed as consistent usage: negative counts as nothing, no more cached tokens than the prompt has, no more written ones than are left |
| Pricing.ReservationIs | wevibe_bench/adapters/openrouter_proxy.py:420-452 | the reservation: the prefix at the cheaper cached rate, the rest at the dearer of the input and cache write rates, all output, a fee of 6 %, a safety factor of 1.1 and 0.1 cent |
| Pricing.ClampMaxTokens | wevibe_bench/adapters/openrouter_proxy.py:392-396 | a usable client limit under the cap is kept, anything else becomes the cap |
| Ledger.ReserveAccounts | wevibe_bench/adapters/openrouter_proxy.py:814-841 | a reservation adds its amount, nothing if negative, to the total, less what its id already held; no other hold and no accrued total changes |
| Ledger.ReserveKeepsEarlierHolds | wevibe_bench/adapters/openrouter_proxy.py:840 | earlier holds all survive if and only if the id held nothing |
| Ledger.AdmissionIsExact | wevibe_bench/adapters/openrouter_proxy.py:821-838 | a watch-only ledger admits everything; an enforcing one admits a new id if and only if the resulting total respects the cap, strictly when equality is rejected |
| Ledger.SettleAccounts | wevibe_bench/adapters/openrouter_proxy.py:843-855 | both settlements replace the hold by the bill in the total, an actual one in the actual total and a derived one in the derived |
| Ledger.SettleKeepsCap | wevibe_bench/adapters/openrouter_proxy.py:843-848 | a settlement stays under the cap if and only if the bill fits the hold plus the room left |
| Ledger.RetainConserves | wevibe_bench/adapters/openrouter_proxy.py:857-862 | retaining moves the hold without changing the total, and doing it twice changes nothing |
| Ledger.Load | wevibe_bench/adapters/openrouter_proxy.py:776-812 | a load that succeeds gives sound books for the same binding |
| Ledger.LoadReads | wevibe_bench/adapters/openrouter_proxy.py:776-812 | a checkpoint loads if and only if it is an object of schema 1 or 2, with this binding and an object of holds; amounts below zero count as zero and schema 1 has no derived total; each refusal has its reason |
| Ledger.SaveWrites | wevibe_bench/adapters/openrouter_proxy.py:892-917 | each amount is written under its own name, as schema 2 |
| Ledger.SaveLoadRoundTrip | wevibe_bench/adapters/openrouter_proxy.py:776-917 | reloading restores exactly what was saved if and only if the books are sound and the binding is the same; another binding is refused |
| Ledger.BudgetLedger.Open | wevibe_bench/adapters/openrouter_proxy.py:732-771 | resumes from a checkpoint, is refused with its reason, or starts empty and writes the first checkpoint; the cap is the requested one, cut to 12 |
| Ledger.BudgetLedger.Reserve | wevibe_bench/adapters/openrouter_proxy.py:814-841 | refuses exactly when the projected total passes the cap, changing nothing; else holds the amount and checkpoints it |
| Ledger.BudgetLedger.SettleActual | wevibe_bench/adapters/openrouter_proxy.py:843-848 | hold released, actual accrued, checkpoint equal to the books |
| Ledger.BudgetLedger.SettleDerived | wevibe_bench/adapters/openrouter_proxy.py:850-855 | hold released, derived accrued, checkpoint equal to the books |
| Ledger.BudgetLedger.RetainUnproven | wevibe_bench/adapters/openrouter_proxy.py:857-862 | hold moved to unproven, checkpoint equal to the books |
| Ledger.BudgetLedger.OutstandingTotal | wevibe_bench/adapters/openrouter_proxy.py:823-829 | the loop's total is the sum over all holds, in whatever order |
| Ledger.BudgetLedger.Remaining | wevibe_bench/adapters/openrouter_proxy.py:864-873 | the cap less everything the ledger answers for |
| LedgerRuns.StepKeepsInv | wevibe_bench/adapters/openrouter_proxy.py:776-917 | every begin, commit, failed write, crash, restart and charge keeps the books in memory and on disk covering all requests |
| LedgerRuns.BudgetHolds | wevibe_bench/adapters/openrouter_proxy.py:724-917 | in every state of every run, watch-only or not: the checkpoint reloads, and money charged <= total on disk, and <= total in memory while the process is up; with an enforced cap both totals <= hard cap <= 12 |
| LedgerRuns.RequestedCapHolds | wevibe_bench/adapters/openrouter_proxy.py:724-917 | a ledger opened to enforce a requested cap: in every state of every run money charged <= total on disk and in memory <= the requested cap, and <= 12 |
| LedgerRuns.PricedSettlementPermitted | wevibe_bench/adapters/openrouter_proxy.py:420-520 | a bill derived from usage inside its bounds is a settlement the run theorem allows if and only if it covers what was charged |
| LedgerRuns.PricedRunsAreRuns | wevibe_bench/adapters/openrouter_proxy.py:420-917 | a run whose holds are worst cases, whose charges stay within the bill and its fees, and whose settlements are what was charged or a derived bill that covers it, is a run of the budget theorem |
| DomTree.MatchIs | dashboard/dom.js:75-124 | when both lists are non-empty and all members are elements with data-k, row j is matched with old child i if and only if i is the last with its key, and unmatched if and only if none has it; otherwise it is matched with the child at its place if and only if kind and tag agree |
| DomTree.RowShows | dashboard/dom.js:75-178 | row j after a patch: a matched node keeps kind and tag and takes the row's attributes or text, its children replaced unless the row has data-preserve; an unmatched row is copied |
| DomTree.MorphKidsAgree | dashboard/dom.js:75-178 | the patched children show the template if and only if every matched pair has equal tags |
| DomTree.MorphAgrees | dashboard/dom.js:143-168 | the same for one node |
| DomTree.AgreementOfKidsIsStable | dashboard/dom.js:75-178 | children that already show the template are left exactly as they are |
| DomTree.MorphIdempotent | dashboard/dom.js:75-178 | patching twice with one template is patching once, tags or no tags; only the template's keys must be unique |
| DomTree.UnchangedWhenAgreeing | dashboard/dom.js:75-178 | with matching tags a patch changes nothing if and only if the children already show the template |
| DomTree.KeyedPathKeepsOldTag | dashboard/dom.js:112-135 | a keyed row whose tag changed keeps the old tag and does not show the template |
| DomTree.ShiftedPanelIsRebuilt | dashboard/dom.js:84-98 | in a list matched by position, with more panels in front than before, the last panel is a copy of its template, preserved children and all |
| DomMorph.Node.PatchAttrs | dashboard/dom.js:171-178 | attributes become the template's, with no call exactly when they were already |
| DomMorph.Node.InsertBefore | dashboard/dom.js:130-133 | a live child moves in front of another, or to the end |
| DomMorph.Node.Clone | dashboard/dom.js:93-126 | a deep copy made of new nodes |
| DomMorph.Node.PatchNode | dashboard/dom.js:143-158 | the same node morphed in place when kind and tag agree, else a fresh clone in its place; siblings untouched |
| DomMorph.Node.PatchElement | dashboard/dom.js:160-169 | the subtree becomes the morph of the old one, which carries the known node of every matched place at any depth; preserved children stay, matched children keep their nodes; no call if that changes nothing |
| DomMorph.Node.PatchChildren | dashboard/dom.js:75-100 | the children become the morph of the old ones, matched rows on their own nodes and so at every depth below where nodes are known, unmatched on fresh ones, and an old child stays if and only if a row is matched with it, so by its data-k when all rows on both sides have one and by its place otherwise; no call is made if and only if the patch changes nothing, so none when the children already agree |
| DomMorph.Node.PatchPositional | dashboard/dom.js:84-99 | the same for the positional loop, with surplus nodes removed and missing ones appended |
| DomMorph.Node.IndexByKey | dashboard/dom.js:113-114 | the Map holds the last node under each key |
| DomMorph.Node.PlaceAfter | dashboard/dom.js:128-134 | the target ends right after the walked prefix, with no call exactly when it was there |
| DomMorph.Node.WalkRow | dashboard/dom.js:119-135 | one row keeps the loop invariant: the walked prefix is final, unplaced nodes are untouched |
| DomMorph.Node.RemoveUnseen | dashboard/dom.js:137-139 | exactly the walked rows stay |
| DomMorph.Node.PatchKeyed | dashboard/dom.js:112-140 | every key on both sides is held by the same node at its new place, other rows by fresh nodes, vanished keys are gone |
| DomMorph.Node.Patch | dashboard/dom.js:61-169 | the children show the morph; a row is held by the old node with its data-k, or without keys by the one at its place; at any depth every matched node is the same node as before, and below a preserved one so is everything; no call is made if and only if the patch changes nothing, and then no attribute, text or child list below changes |
| DomMorph.Node.PatchTwice | dashboard/dom.js:61-178 | with unique keys a second patch with the same template makes no mutating call, tags or no tags; the first makes none if and only if it changes nothing, which with matching tags means the tree already agreed |
| Binomial.CombIsFactorialQuotient | wevibe_bench/stats.py:211-213 | Pascal's rule gives the factorial quotient |
| Binomial.TailVersusHalf | wevibe_bench/stats.py:225-271 | b or more of b + c fair flips is at most as likely as not exactly when b > c |
| ExactTests.ExactPairedSignTest | wevibe_bench/stats.py:188-222 | the loop's counts are the pairs that rose, fell and tied, with the p-value of those counts |
| ExactTests.SignTestCounts | wevibe_bench/stats.py:188-222 | those counts are the numbers of pairs that rose and fell, the rest are ties, and the p-value is the two-sided one of the two counts |
| ExactTests.McNemarReports | wevibe_bench/stats.py:225-271 | it fails if and only if a count is negative or the alternative unknown; each alternative has its p-value, the odds ratio is b over c, infinite when only c is nothing, and propB the share of b |
| ExactTests.SignTestIsSymmetric | wevibe_bench/stats.py:188-222 | swapping before and after swaps the counts and nothing else |
| ExactTests.SignTestIsTwoSidedMcNemar | wevibe_bench/stats.py:206-259 | the sign test is two-sided McNemar on its non-tied pairs: twice the smaller of the two directional p-values, at most 1 |
| ExactTests.OneSidedPair | wevibe_bench/stats.py:252-254 | P(b,c) + P(c,b) = 1 + C(b+c,b) / 2^(b+c) |
| ExactTests.TwoSidedDoubles | wevibe_bench/stats.py:252-259 | the two-sided p-value is twice the smaller one-sided one, at most 1 |
| ExactTests.PGreaterVersusHalf | wevibe_bench/stats.py:252-254 | the one-sided p-value is at most 1/2 if and only if b > c |
| ExactTests.SignTestFloor | wevibe_bench/stats.py:186-210 | the p-value is at least min(1, 2^(1-n)), attained by a one-sided split |
| ExactTests.SixPairsNeeded | wevibe_bench/stats.py:186-187 | p < 0.05 is reachable if and only if n_effective >= 6 |
| ExactTests.OneSidedKeepsLevel | wevibe_bench/stats.py:225-271 | for every n and alpha the outcomes of n fair flips that the one-sided test calls significant weigh at most alpha |
| ExactTests.LevelAttained | wevibe_bench/stats.py:225-271 | at a level that is one of its p-values they weigh exactly that |
| ExactTests.TwoSidedKeepsLevel | wevibe_bench/stats.py:188-271 | the same bound for the two-sided test and the sign test |
| ExactTests.PairedBinaryContrast | wevibe_bench/stats.py:274-312 | the table counts each kind of pair, each rate is its count over all pairs, and the difference is the discordant excess over all pairs |
| ExactTests.TableCounts | wevibe_bench/stats.py:274-312 | the cells of the table are numbers of pairs: survived both, only without the outcome, only as shipped |
| ExactTests.SignificanceImpliesDirection | wevibe_bench/stats.py:315-336 | for alpha <= 1/2 significance implies direction, so the verdict is effect, few enough reversals and a p-value below alpha |
| ExactTests.VerdictIs | wevibe_bench/stats.py:315-336 | each of the four tests compares what its name says, and the contrast passes if and only if all four do |
| ExactTests.HalfIsTheExactLevel | wevibe_bench/stats.py:315-336 | that implication holds for all counts if and only if alpha <= 1/2 |
| Quantile.BetaQuantile | wevibe_bench/stats.py:109-127 | the loop computes the midpoint of the bracket after its halvings, with the same errors and exact ends |
| Quantile.QuantileDefined | wevibe_bench/stats.py:109-116 | it exists if and only if the level is in [0, 1] and both parameters are positive, and is exact at levels 0 and 1 |
| Quantile.BisectBrackets | wevibe_bench/stats.py:118-127 | F(lo) < p <= F(hi) inside [0, 1], with width 2^-i |
| Quantile.MidpointLocates | wevibe_bench/stats.py:118-127 | for a monotone F the result is within half a bracket of where F crosses p |
| Quantile.CoupledRuns | wevibe_bench/stats.py:118-127 | two runs keep ordered brackets whenever the first turns right only where the second does |
| Quantile.QuantileMonotone | wevibe_bench/stats.py:109-127 | a larger level never gives a smaller quantile, whatever F is |
| Quantile.IntervalDefined | wevibe_bench/stats.py:152-183 | both bounds succeed if and only if counts and alpha are valid; without successes, failures or trials the ends are exactly 0 and 1 |
| Quantile.SmallerAlphaContains | wevibe_bench/stats.py:152-167 | a smaller alpha gives a containing interval |
| Quantile.OneSidedUpper | wevibe_bench/stats.py:152-183 | the one-sided upper bound never exceeds the two-sided one and equals it at half the alpha |
| Quantile.TailMonotone | wevibe_bench/stats.py:152-167 | s or more successes grow likelier with the success probability |
| Quantile.FairTail | wevibe_bench/stats.py:152-254 | for a fair trial that tail is the one McNemar's test sums |
| Quantile.IntervalOrdered | wevibe_bench/stats.py:152-167 | 0 <= lower <= upper <= 1 |
| Quantile.IntervalInvertsTests | wevibe_bench/stats.py:152-167 | up to the last bracket the interval is the set of success probabilities the exact binomial tests accept |
| Quantile.ZeroSuccessUpper | wevibe_bench/stats.py:170-183 | with no success the upper bound is the x with (1 - x)^n = alpha, up to the last bracket |
| Percentiles.SortedIsUnique | wevibe_bench/stats.py:394 | a sorted arrangement is unique, so no other sort changes a result |
| Percentiles.PercentileMonotone | wevibe_bench/stats.py:351-360 | percentiles rise with p from the minimum to the maximum |
| Percentiles.PercentileAt | wevibe_bench/stats.py:351-360 | a percentile whose position is a fraction past an index lies that fraction of the way to the next value |
| Percentiles.PercentilesAgree | scripts/measure_episode_duration.py:89-101 | the second implementation equals the first at q = 100 p and fails exactly outside [0, 100] |
| Percentiles.ClusterBootstrapCi | wevibe_bench/stats.py:363-395 | the loops compute the percentiles of the statistic over the resamples, with the source's errors |
| Percentiles.IntervalIs | wevibe_bench/stats.py:363-395 | it fails if and only if alpha is outside (0, 1), no iterations are asked for or a cluster is missing or empty; its ends are the alpha / 2 and 1 - alpha / 2 percentiles of one statistic per iteration |
| Percentiles.SampleGrows | wevibe_bench/stats.py:386-392 | a resample is the drawn clusters one after another |
| Percentiles.IntervalBounded | wevibe_bench/stats.py:363-395 | lower <= upper, inside any bounds of the statistic, for every alpha in (0, 1) |
| Percentiles.SmallerAlphaContains | wevibe_bench/stats.py:363-395 | with the same draws a smaller alpha gives a containing interval |
| Percentiles.MeanIntervalInRange | wevibe_bench/stats.py:347-395 | the interval of the mean stays inside the range of the observations |
| Percentiles.OneClusterDegenerate | wevibe_bench/stats.py:363-395 | one cluster gives its statistic twice |
| Icc.Decomposition | wevibe_bench/stats.py:427-437 | ss_within, got by subtraction, is the sum of squared within-group deviations |
| Icc.WellFounded | wevibe_bench/stats.py:414-448 | a value exists if and only if two groups have values, the values differ and some group has two; it lies in [-1/(m-1), 1], each end reached exactly when group means agree or groups are constant; its value r solves r ((n-k) B + (m-1)(k-1) W) = (n-k) B - (k-1) W for the squares B between and W within k groups of n values, so it is positive if and only if the mean square between is the larger |
| Icc.ValuesKept | wevibe_bench/stats.py:424-428 | leaving out the groups without values loses no value and moves none |
| Feed.PaintAgrees | dashboard/panels/live.js:245-311 | after a paint the box is the note, or at most 400 rows in increasing order ending with exactly the rows of a full redraw |
| Feed.ReceiveKeepsInv | dashboard/board.js:140-244 | every frame and filter toggle keeps the painted part of the window at the end of the box |
| Feed.RunAgrees | dashboard/panels/live.js:237-311 | both, over every run of frames, toggles, disconnects and skipped paints |
| Feed.BoxOfRun | dashboard/panels/live.js:74-311 | after a painting step of any run a connected feed closes with the events of the window, in order, whose kind is unknown or was toggled an even number of times, the whole window if nothing was toggled; otherwise it shows its note |
| Feed.WindowOfRun | dashboard/board.js:225-236 | the window is the newest 400 of all events delivered |
| Feed.HiddenIs | dashboard/panels/live.js:74-78 | a kind is hidden if and only if it is one of the seven and was toggled an odd number of times |
| Feed.RowsMarked | dashboard/panels/live.js:276-306 | a redraw marks no row as new; an append marks exactly the rows it adds and keeps the others as they were |
| Feed.ToggleFlips | dashboard/panels/live.js:75-78 | a toggle shows or hides exactly the rows of its kind, and two cancel |
| Feed.SwappedBoxAgrees | dashboard/panels/live.js:276-292 | a box swapped for an empty one is repaired by the next paint if and only if that paint is stale or all rows are new |
| Feed.Dashboard.OnBoard | dashboard/board.js:140-153 | the board frame re-attaches the window and repaints |
| Feed.Dashboard.OnRingPatch | dashboard/board.js:167-222 | a patch of the ring's metadata keeps the client's rows, and is ignored before a board |
| Feed.Dashboard.OnEvents | dashboard/board.js:225-244 | the batch joins the window, trimmed to 400; the cursor advances; the box is painted |
| Feed.Dashboard.Toggle | dashboard/panels/live.js:75-78 | a known kind flips its filter, an unknown one does nothing |
| Feed.Dashboard.PaintFeed | dashboard/panels/live.js:245-311 | the method's new state is the specified paint |
| Feed.Dashboard.AppendTrimmed | dashboard/panels/live.js:291-306 | append then removal from the top leaves the newest 400 rows |
| FeedStream.RingRefines | dashboard/sources/control-plane.mjs:104-200 | a server whose ring holds the newest 400 events does what one that forgets nothing would, each frame cut to its newest 400 |
| FeedStream.RingKeepsWindow | dashboard/server.mjs:650-779 | in every interleaving of emissions, ticks, deliveries and reconnects the window is the newest 400 events up to the cursor, none skipped or twice, however much the ring has dropped |
| FeedStream.DeliveredInOrder | dashboard/server.mjs:650-662 | every delivered batch is in order above the cursor, which is what the feed assumes |
| FeedStream.BoxShowsStream | dashboard/board.js:124-244 | in every joint run of the stream with board frames, patches, errors and toggles, after every paint the box is the note or ends with exactly the visible ones among the newest 400 events up to the cursor |
| RunStart.TokenDetermines | control/contract.mjs:199-217 | when no model on offer goes on from another of its substrate with the separator, equal tokens of valid requests mean equal parameters, whatever the orgs hold |
| RunStart.OverlapCollides | control/contract.mjs:199-217 | two such models of one substrate give two different valid requests with one token |
| RunStart.TokensExact | control/contract.mjs:199-217 | tokens determine all valid requests if and only if there are no two such models |
| RunStart.TokenShape | control/contract.mjs:199-217 | the token spells model, arm, org, default context and kind in that order |
| RunStart.RestatementTells | control/contract.mjs:223-240 | what the operator reads, line by line: MEMORY ON or CONTROL, the model, CLOUD with vendor, route and BILLED or LOCAL and unbilled, the context, and the org of a memory cell |
| RunStart.OnlyCloudIsBilled | control/contract.mjs:223-240 | the substrate line ends in BILLED if and only if the cell is a cloud cell |
| RunStart.PreviewAnswers | control/server.mjs:236-455 | a willing server answers a selection with a token if and only if kind and arm are known, the trimmed model is offered for that kind and a memory cell names an org; token and restatement are for the trimmed selection |
| Text.StripIs | control/server.mjs:242-244 | trimming takes nothing but spaces off the two ends, and all of them |
| RunStart.RunControl.SetRunSel | dashboard/panels/runstart.js:80-85 | a known field is set and the confirmation dropped |
| RunStart.RunControl.PresetRun | dashboard/panels/runstart.js:101-114 | the preset replaces model, arm and kind, keeps the org, and disarms |
| RunStart.RunControl.Disarm | dashboard/panels/runstart.js:146-150 | armed, token and restatement go together |
| RunStart.RunControl.ArmSend | dashboard/panels/runstart.js:171-179 | the preview carries the current selection |
| RunStart.RunControl.ArmReceive | dashboard/panels/runstart.js:180-195 | token and restatement are set together, or both dropped with the refusal |
| RunStart.ArmSettles | dashboard/panels/runstart.js:180-195 | an answer ends the waiting; a success arms with what was sent, anything else disarms and leaves the reason |
| RunStart.RunControl.StartSend | dashboard/panels/runstart.js:202-213 | nothing is sent without a token; otherwise the current selection and the token |
| RunStart.RunControl.StartReceive | dashboard/panels/runstart.js:214-236 | every outcome disarms |
| RunStart.StartSettles | dashboard/panels/runstart.js:214-236 | an answer ends the waiting and disarms; only a success counts as started, and each failure leaves its reason |
| RunStart.EveryStartWasShown | dashboard/panels/runstart.js:80-251 | without two such models, in every interleaving each start the server accepts carries exactly the parameters of the restatement held with its token, which tells them line by line |
| RunStart.ShownExactly | dashboard/panels/runstart.js:80-251 | that holds of all runs if and only if there are no two such models: with them a run starts a cell that was not shown |
| RunStart.ShownTokenDetermines | control/contract.mjs:199-240 | token and restatement together determine the parameters, whatever the models are called |
| RunStart.MatchesExactlyInTime | dashboard/panels/runstart.js:80-251 | in every run of every server, an armed client has at all times held the token and restatement of exactly its selection if and only if no preview armed after its parameters were changed |
| RunStart.LateReply | dashboard/panels/runstart.js:171-195 | a preview reply always arms; its token confirms the current selection if and only if the parameters sent are those selected now |
| RunStart.ArmedForAnother | dashboard/panels/runstart.js:80-195 | from any state without a preview in flight a run ends armed for a model no longer selected |
| ServeMetrics.ExtractTranscriptMetrics | wevibe_bench/serve_client.py:219-311 | the loops compute each field as its own sum, maximum, last or first eight over the transcript |
| ServeMetrics.Homomorphism | wevibe_bench/serve_client.py:219-311 | metrics of a concatenation combine the metrics of its parts |
| ServeMetrics.OneMessage | wevibe_bench/serve_client.py:191-311 | what one message adds: an assistant message its usage, a turn if it generated anything, a failure if it carries an error, in a real turn a guard abort or else a finalize timeout as its text says; a user message one user message |
| ServeMetrics.PartsCounted | wevibe_bench/serve_client.py:168-186 | a truncation for each step finished in any way but stop, an error for each error part |
| ServeMetrics.LastFinishIs | wevibe_bench/serve_client.py:168-186 | the last finish is the last step's reason, unknown unless it is one of the known ones |
| ServeMetrics.TextsAre | wevibe_bench/serve_client.py:232-276 | captured texts: the error's first, then the error part's, blank ones left out, each cut to 240 characters |
| ServeMetrics.TurnBounds | wevibe_bench/serve_client.py:191-311 | guard aborts + finalize timeouts <= turns <= assistant messages, and <= info errors |
| ServeMetrics.AnomalousWhenCounted | wevibe_bench/serve_client.py:314-335 | anomalous if and only if a truncation, error part or info error was counted |
| ServeMetrics.AnomalyOfConcatenation | wevibe_bench/serve_client.py:314-335 | a concatenation is anomalous if and only if one of its parts is |
| ServeMetrics.EarlierSignatureStays | wevibe_bench/serve_client.py:235-239 | an earlier signature keeps its verdict; after eight captured texts without one none is given |
| ServeMetrics.GuardAbortMeans | wevibe_bench/serve_client.py:314-335 | a transcript is a guard abort if and only if one of its captured texts has the guard signature and no earlier one the finalize-timeout signature |
| ServeMetrics.VerdictIs | wevibe_bench/serve_client.py:314-335 | the verdict in order: guard abort, finalize timeout, truncation, error event, none |
| ServeMetrics.SignaturesAre | wevibe_bench/serve_client.py:108-114 | the two guard signatures and the finalize one, in any case, anywhere in the text |
| ServeMetrics.FinalizeTextWins | wevibe_bench/serve_client.py:317-330 | an earlier finalize-timeout text beats a guard text |
| ServeWait.ServeClient.RetryRead | wevibe_bench/serve_client.py:380-421 | stops at the first outcome that is not a transient fault, makes at most the given attempts, naps after each fault but a last |
| ServeWait.RetryNapsBounded | wevibe_bench/serve_client.py:121-127 | the client's retries sleep at most three seconds in all |
| ServeWait.RetrySettings | wevibe_bench/serve_client.py:121-127 | four attempts, with naps of 0.5, 1.0 and 1.5 seconds between them |
| ServeWait.ProbeMeans | wevibe_bench/serve_client.py:151-161 | only an entry of type busy reads as busy; no entry, an empty one, another type or an answer that is no map read as not busy; a fault reads as neither |
| ServeWait.ServeClient.SessionBusy | wevibe_bench/serve_client.py:500-514 | the probe says what its last request said, and those before it were faults |
| ServeWait.ServeClient.WaitBusy | wevibe_bench/serve_client.py:557-580 | True only on an answered busy reading, the last request; False only past the deadline with none |
| ServeWait.ServeClient.WaitIdle | wevibe_bench/serve_client.py:533-555 | True only on an answered not-busy reading, never on a failed probe; False only past the deadline with none |
| ServeWait.ServeClient.ConfirmThenWait | wevibe_bench/serve_client.py:533-580 | both True means an answered busy reading and a later answered not-busy one, the last request |
| Scorecard.Scorecard.ModelDiffs | wevibe_bench/scorecard.py:262-339 | the nested loops append one row per model and ON-style condition, in order |
| Scorecard.DiffMeaning | wevibe_bench/scorecard.py:274-336 | each count, token sum and cost of a row is the sum over the whole card its name says; rates times counts give the hits, the lift takes the OFF rate to the ON rate, the deltas take OFF to ON |
| Scorecard.RowPresent | wevibe_bench/scorecard.py:262-291 | a row exists if and only if its condition begins with ON and the model has a cell of it |
| Scorecard.RowsInOrder | wevibe_bench/scorecard.py:272-287 | rows are strictly ordered by model and then condition |
| Names.LessIs | wevibe_bench/scorecard.py:272-287 | names are ordered by the first character in which they differ, a proper prefix first |
| Scorecard.ArmsContend | wevibe_bench/scorecard.py:274-336 | a row's contention figures are those of the model's OFF cells and of the scored cells of its condition |
| Scorecard.SummaryCounts | wevibe_bench/scorecard.py:224-251 | a contention summary counts its cells and, as measured, those with any counter |
| Scorecard.HttpCounters | wevibe_bench/scorecard.py:224-251 | its 429 and 402 figures are mean and maximum of their own counters over the cells that have them |
| Scorecard.RetryCounters | wevibe_bench/scorecard.py:224-251 | the same for retries and upstream errors |
| Scorecard.Latencies | wevibe_bench/scorecard.py:224-251 | the mean of the median latencies and the maximum of the maxima |
| Scorecard.DiffsPermuted | wevibe_bench/scorecard.py:224-339 | the diffs do not depend on the order of the cells |
| Scorecard.NotScoredNeverCounts | wevibe_bench/scorecard.py:224-339 | changing outcome, tokens, cost or contention of any not-scored ON cells changes no diff |
| Scorecard.AddingNotScored | wevibe_bench/scorecard.py:292-336 | a not-scored cell added to an existing condition adds one to that row's excluded count and changes nothing else |
| Scorecard.GateExactly | wevibe_bench/scorecard.py:274-336 | a not-scored cell leaves all counted figures alone if and only if it is not OFF with a row to enter and opens no row |
| Ordering.BuildOnOrder | wevibe_bench/cumulative/ordering.py:46-100 | both loops compute the specified sessions, with the same errors |
| Ordering.SchedulesGrow | wevibe_bench/cumulative/ordering.py:103-124 | for a fixed roster, seed and hash a smaller budget gives a prefix |
| Ordering.ScheduleShape | wevibe_bench/cumulative/ordering.py:30-124 | sequence_index is the position, OFF comes first with each roster entry once in order, each ON session is the roster entry the generator of this seed and hash draws next, and it fails only on an empty roster or a negative budget |
| Ordering.ExplicitFollowed | wevibe_bench/cumulative/ordering.py:60-84 | an explicit order is followed name by name, failing if and only if a name is not in the roster; a repeated model takes its last entry |

## Left out

- DomMorph.Node.PatchKeyed: keys are unique in both lists (`KeysOk`), because the collapse of duplicate keys is not modelled.
- DomMorph.Node.PatchElement: form state in properties (`patchFormState`) and focus are not modelled.
- DomMorph.Node.PatchChildren: the template is a value, read once per call, so a template that changes while it is read is not modelled.
- LedgerRuns.BudgetHolds: request ids are fresh, and each bill fits its hold; `ReserveKeepsEarlierHolds` and `SettleKeepsCap` say what happens otherwise.
- Ledger.Load: numbers in the checkpoint are numbers; text that does not convert raises in the source and is not modelled.
- ExactTests.SignTestIsTwoSidedMcNemar: the interval keys of `mcnemar_exact` are not part of its result here.
- Quantile.IntervalInvertsTests: the incomplete beta function at whole parameters is the binomial tail, by contract; convergence of its continued fraction is not modelled.
- Percentiles.ClusterBootstrapCi: the draws are a parameter whose only contract is that each picks a cluster.
- Feed.RunAgrees: the morph leaves the box alone, and events carry a seq; `SwappedBoxAgrees` covers an emptied box. Scroll position and the unread pill are not modelled.
- FeedStream.BoxShowsStream: as for `RingKeepsWindow` and `RunAgrees`.
- FeedStream.RingKeepsWindow: explicit reconnects only, over a ring that reports its newest event as its cursor; the browser's own reconnect reuses an old URL. A restart of the ring, after which numbers begin again below the client's cursor (`ringRestarted`), is not modelled.
- RunStart.EveryStartWasShown: the models on offer and their cloud routing do not change during a run; roster, baseline and serial checks are one arbitrary refusal; trimming is ASCII.
- ServeMetrics.FinalizeTextWins: lower-casing and trimming are ASCII; message fields are present or at their defaults.
- ServeWait.ServeClient.WaitIdle: the clock is any that passes every deadline for good.
- Scorecard.NotScoredNeverCounts: cell fields that reach no diff (task, turns, delivery, pattern position and the like) are dropped from the cell.
- Ordering.ScheduleShape: the generator is a parameter indexed by seed, hash, size and draw; SHA-256 is not modelled.
- Float rounding, JSON and regex parsing, dates and logging.
- Docker, subprocesses, sockets, databases, HTML and CSS.
- The control plane beyond its token and parameter checks, the TUI rows spliced by patches, the sequencer and the adapters other than the proxy's ledger.
- `wilson_interval`, `chapman_estimator`, `snapshot`, the profile tables and the pricing gate, which have no property of this kind.
