# A verified model of the options bot's decision core

This project models, in Dafny, the parts of an intraday options bot whose correctness is a property of whole runs: what may
open beside what is already open, what a broker reconcile may change, how a windowed tape classifier moves between states, how
a tick asks its strategies, how a credit vertical is priced, posted and booked, and the small counters, clocks and latches that
hold the tick loop together. Theorems are about every input, every history and every environment, except for the premises they
name: where a law needs one, such as a readable table, a venue that does not over-report or a measured ratio, it is in the
lemma's `requires`, and a companion lemma says what happens without it.

| file | what it models | main results |
|---|---|---|
| `Dispatch.dfy`, `DispatchActs.dfy` | `attempt_new_entry`: admission, the cascade, the loss-cap branch, the session caps | a raise is a decline, nothing competes, exactly when a strategy is asked and its signal traded, once per session over every run with restarts |
| `CreditBook.dfy` | the gate over open credit verticals | the structure law over every history of gated opens and arbitrary closes; when grants and unreadable tables keep the book's shape |
| `Reconcile.dfy`, `ReconcileRows.dfy` | `_intraday_reconcile` with `leg_roles` and `_adopt_record` | coverage exactly conserved, contracts conserved exactly when, which rows close and what is adopted in the rows' own fields, idempotence |
| `Ladder.dfy`, `CreditRung.dfy`, `CreditWalk.dfy`, `CreditRemainder.dfy` | the selling ladder, the one placer of a credit vertical, runs of its postings, the row and its unfilled remainder | never under mark, the rung counts the misses and new limits fall under them, conservation of contracts and cash |
| `CommitmentState.dfy`, `FiveMinute.dfy`, `CommitmentRun.dfy`, `CommitmentSnapshots.dfy`, `CommitmentGate.dfy` | the commitment classifier, its 5m loader, the bounded read with hysteresis, the snapshots over changing series, the recorder and the entry gate | side duality, reflection and rescaling, exact bounded read, hysteresis over runs and exactly when it is lost, replay |
| `Efficiency.dfy`, `Character.dfy` | the persistence ratio and the margin-held character | exact range, invariances, the chatter bound |
| `ErrorCounter.dfy`, `ReconcileSlot.dfy`, `ChainArchive.dfy`, `Latch.dfy` | the tick loop's counter, the reconcile schedule and its latch, the archive cadence | largest suffix excess, greatest scheduled instant, exactly once per key |
| `Wrap.dfy`, `TriggerMap.dfy`, `EntryEnd.dfy` (with `Text.dfy`, `Decimal.dfy`) | greedy wrapping, fork triggers, the HH:MM switch | minimality, nearest-first selection, print/read round trip |

`Common.dfy` holds shared vocabulary. `dafny verify dfyconfig.toml` checks the whole project. Every lemma says
`{:induction false}`: each induction is written out, and the solver is never left to guess one.

## How the model is built

- Objects the bot updates in place (`BotState`, the `_ADMITTED` global, the ladder registry, a position row, the trades table,
  the recorder, the archive) are classes whose methods are proved equal to a specification function of the old state; the laws
  are then lemmas about those functions. Loops of the source are loops here, with invariants.
- Code that only computes is functions and lemmas.
- Where a method and its specification call the same function, a law of its own says what that function comes to, in the fields
  and the numbers of the source.
- Prices, credits and ratios are `real`. Instants are integers: minutes of the day with a bell `shift`, or epoch seconds.
- What lies outside is a parameter. Strategies, execution, chain and pairing answers in `Dispatch` are arbitrary functions of
  the site and of everything asked and executed before it that tick; the broker in `CreditRung` is an arbitrary function of
  the order's limit and size. So a theorem about one tick or one order holds whatever they answer.

## Where the code and its words disagree, or a law is false

The code is kept; each case has a lemma with the exact condition, and usually a concrete input.

- A rejection of age 0 reads as unmeasurable, because the code writes `bars_ago or -1` (main.py:3763): the accepted ages are 1
  to 5 (`CreditBook.SecondLegAdmittedIff`).
- When the open sides cannot be read the gate sees an empty book and opens (main.py:3662), and a sweep on a handoff grant
  never asks the gate (main.py:5028-5048), though not while another vertical of the sweep is open. So over a whole history the
  book keeps to two legs of different sides exactly when each such blind addition finds room (`CreditBook.ShapeKeptIff`,
  `CreditBook.ThreePutsWhenUnreadable`, `CreditBook.HandoffBreaksShapeIff`, `CreditBook.HandoffBesideATrendPut`). Strikes that
  cannot be compared pass the geometry gate (`CreditBook.UnverifiableGeometryPasses`).
- A held long leg whose option symbol does not parse is not adopted when its row is closed, so its coverage is lost
  (`Reconcile.CoverageExact`, `Reconcile.UnparsedLegIsUncovered`). A leg that is adopted is adopted at the broker's whole quantity, once for each stripped row that
  held it, so the contracts managed are conserved exactly when the stripped rows' contracts amount to that
  (`Reconcile.QuantityConservedIff`): a leg shared with a kept row, or a lot bought by hand in it, is taken in as well
  (`Reconcile.SharedLegIsOverAdopted`, `Reconcile.ManualLotIsAdopted`).
- A slot names itself exactly when the bell leaves the wind-down after the open or one of its sweeps has come due since; a bell
  before 09:45 can break that (`ReconcileSlot.SlotIdempotentIff`, `ReconcileSlot.VeryShortDayNamesASlotBeforeTheOpen`). The loop's comment that the last sweep is at 15:30 is older than the
  schedule: the last instant is 15:57.
- The chatter bound needs the volatility ratio measured on every tick; persistence need not be. A ratio that comes and goes
  flips the state on every tick while no measured value moves (`Character.UnmeasuredAxisChatters`). The additive 2 in the bound cannot be 1
  (`Character.SecondDisplacementCanBeFree`).
- Greedy wrapping uses the fewest lines exactly when the first word is shorter than the width, given that every word fits
  (`Wrap.WrapMinimalIff`): a first word as long as the width costs one blank line.
- Translation of price and rails together keeps the map's activity exactly when no midline is carried across zero and the price
  is not either, or there was nothing to lose (`TriggerMap.TranslationOfMap`, `TriggerMap.MovingThePriceBelowZeroDropsAPut`);
  and raising a missing price can add an active put (`TriggerMap.RaisingPrice`, `TriggerMap.MissingPriceAddsAPut`). A frame's call and put are never both active whatever the order of the midline, so long as
  the upper rail is above the lower and the fraction is positive (`TriggerMap.NeverBothActive`).
- "A refused price never returns" is kept by a walk, and on a usable quote: so long as the walk is neither cleared nor dropped,
  a posting reaches a refused limit of its structure exactly when the lowest price it can come down to does, which is the
  terminal rung at mark, or the fallback when the quote is not usable (`Ladder.RefusedStaysOffTheTable`,
  `CreditWalk.LimitsFallOnAStructure`, `CreditWalk.NewLimitIsUnderEveryMiss`). Three inputs bring one back: mark rises over it
  (`Ladder.MarkBringsARefusalBack`), the walk is dropped after an hour untouched (`CreditWalk.DropBringsAMissBack`), or the
  fallback is posted over it (`CreditWalk.FallbackGoesOverAMiss`).
- The hysteresis of two successive snapshots is lost exactly when the minute between them is no longer judged committed: the
  series switched, or fewer than fifty of its closes are still seen (`CommitmentSnapshots.CommittedToAbandonedIff`,
  `CommitmentSnapshots.OnOneSeriesFiftyCloses`, `CommitmentSnapshots.SwitchOfSeriesLosesTheDamping`,
  `CommitmentSnapshots.FortyNineClosesLoseTheDamping`).
- Folding a later fill into a sweep's row restates its premium stop on the credit, where the entry put it on the risk. The two
  agree, as shipped, only when the credit collected is half the width (`CreditRemainder.AccretionKeepsTheStopIff`,
  `CreditRemainder.ShippedSweepStopIff`); a 1.00 credit on a 5-wide sweep goes from 1.60 to 1.15
  (`CreditRemainder.SweepStopTightens`). The credit column is not restated at all
  (`CreditRemainder.CreditColumnIsTheBasisIff`).
- Booked plus remaining is what was asked for exactly when no pass books more than was left when it posted
  (`CreditRemainder.BookedPlusRemainingIff`, `CreditRemainder.OverReportBreaksTheCount`).
- A fill the confirmation could not read is not booked, and the remainder posts for it again
  (`CreditRemainder.UnreadFillIsPostedAgain`). Without a usable quote a refused fallback credit is posted again
  unchanged, walk or none (`CreditRung.FallbackIsPostedAgain`).
- A raising strategy is isolated; a raising execution is not. One reached at an unguarded site ends the tick there
  (`Dispatch.AbandonedIff`, `Dispatch.RaiseOnlyCutsShort`) and silences the strategies after it (`Dispatch.SilencedByARaise`).
- The comment says the second butterfly yields to a pin butterfly that fired; it yields to any signal of it, one that a plan
  switched to LOG only records included (`Dispatch.SecondButterflyIsAskedIff`, `Dispatch.LoggedPinStillTakesTheTick`).
- The second-leg window runs before the tick clears the admitted set, and the leftover
  set reaches it exactly when the rules table cannot be read (`Dispatch.LeftoverReachesTheSecondLegIff`).

## Model

| member | source | states |
|---|---|---|
| `ErrorCounter.BotState.EndTick` | main.py:6651-6659 | one tick moves the counter by the step function, and only an error that takes it above 30 ends the process |
| `ErrorCounter.CounterIsLargestExcess` | main.py:6651-6659 | the saturating counter is the maximum over all windows ending now of errors minus completed ticks |
| `ErrorCounter.ShutdownIffOverrun` | main.py:6654-6659 | while running, the process stops on this tick exactly when some window ending here holds 31 more errors than completed ticks |
| `ErrorCounter.MainLoop` | main.py:6651-6659 | over a whole history the loop stops at the first overrun and at no other tick |
| `Latch.ExactlyOncePerKey` | main.py:6290-6293 | an equality latch over keys that never go back emits every usable key exactly once, in order, and nothing else |
| `Latch.FiresExactlyAtFirst` | main.py:6290-6293 | the latch fires at a look exactly when no earlier usable look carried its key |
| `Latch.BackwardsKeyFiresAgain` | main.py:6292 | the latch compares for equality only: a key that returns after another is acted on twice |
| `ReconcileSlot.SlotIsLatestScheduled` | main.py:6725-6743 | inside the window the slot is the greatest scheduled instant not after now, for every interval and every bell shift |
| `ReconcileSlot.SlotIff` | main.py:6718-6726 | there is a slot exactly on weekdays from 09:30 until the day's bell |
| `ReconcileSlot.WindDownIs` | main.py:6734-6735 | the four wind-down sweeps stand 15, 10, 5 and 3 minutes before the bell |
| `ReconcileSlot.SlotMonotone` | main.py:6710-6743 | later in a day is never an earlier slot |
| `ReconcileSlot.SlotIdempotentIff` | main.py:6725-6743 | read at its own instant a slot names itself if and only if the bell leaves the wind-down after the open or one of its sweeps has come due since |
| `ReconcileSlot.SlotAfterOpen` | main.py:6734-6742 | a bell at 09:45 or later keeps every slot at or after 09:30 |
| `ReconcileSlot.VeryShortDayNamesASlotBeforeTheOpen` | main.py:6734-6738 | a concrete bell for which the 09:30 tick falls in a slot outside the window |
| `ReconcileSlot.BotState.ReconcileIfDue` | main.py:6290-6296 | each tick keeps the swept slots and the remembered slot equal to what the latch makes of the ticks so far |
| `ReconcileSlot.EachSlotSweptOnce` | main.py:6290-6296 | over any clock that does not go back, a slot is swept exactly once if some tick reads it and never otherwise |
| `ReconcileSlot.ScheduledInstantSwept` | main.py:6286-6296 | a scheduled instant with a trading tick at or after it and before its successor is swept |
| `ReconcileSlot.KeyNamesTheSlot` | main.py:6290-6293 | two ticks read the same key exactly when they are of one day and one slot |
| `ChainArchive.Archive.Snapshot` | analysis/chain_snapshot.py:131-185 | when a line is written, what it holds, and that the bucket is remembered only by a write that succeeded |
| `ChainArchive.ArchiveRun` | analysis/chain_snapshot.py:123-185 | over an unforced run a bucket is archived exactly once if it holds a non-empty chain whose write succeeds, and not at all otherwise |
| `ChainArchive.ReadyIffArchivable` | analysis/chain_snapshot.py:145-159 | the usable looks of the cadence latch are exactly the attempts that could be archived |
| `ChainArchive.SameBucketIff` | analysis/chain_snapshot.py:123-128 | two moments share a bucket exactly when they are of one day and no multiple of the whole minutes of the interval begins between them |
| `Efficiency.TravelAtLeastNet` | analysis/character.py:132-135 | net travel never exceeds total travel between any two closes |
| `Efficiency.TravelIsRiseIff` | analysis/character.py:132-135 | total travel equals the rise exactly on non-decreasing closes, and the fall exactly on non-increasing ones |
| `Efficiency.EfficiencyExact` | analysis/character.py:126-135 | the clamps never act; the ratio is 1 exactly on monotone closes and 0 exactly when the ends agree |
| `Efficiency.MeasurableIff` | analysis/character.py:126-134 | there is a reading exactly for twenty closes or more that are not all equal |
| `Efficiency.EfficiencyReversed` | analysis/character.py:126-135 | reading the closes backwards gives the same ratio |
| `Efficiency.EfficiencyAffine` | analysis/character.py:126-135 | no change of unit, origin or sign of the price moves the ratio |
| `Efficiency.DeletionNeverLowers` | analysis/character.py:126-135 | leaving out interior closes never lowers the ratio while it stays measurable |
| `Efficiency.MissingCloseIgnored` | analysis/character.py:126-129 | a missing close changes nothing, wherever it stands |
| `Character.DeepApart` | analysis/character.py:203-235 | readings that clear the margins of two different states, with the ratio measured, differ by the margin on an axis both measured |
| `Character.DisplacedIsDeep` | analysis/character.py:203-235 | a held state is displaced only by a reading that clears the challenger's boundary by the margin |
| `Character.HoldIs` | analysis/character.py:169-235 | what a tick holds, for every name and reading: the first name in its band, then another only a tenth past its band's edge |
| `Character.ConsecutiveDisplacementsSeparated` | analysis/character.py:169-235 | two consecutive displacements of a held state are a margin's move apart on one axis |
| `Character.MarginsPaid` | analysis/character.py:169-235 | after the first two, every displacement has been paid for by a margin of variation |
| `Character.ChatterBound` | analysis/character.py:169-235 | over any run with the ratio measured, displacements are at most 2 plus total variation over the margin, persistence varying over its last measured value |
| `Character.BandsOffNeverDisplaces` | analysis/character.py:182-183 | with the bands off no state is ever held and none displaced |
| `Character.SecondDisplacementCanBeFree` | analysis/character.py:223-232 | a run with two displacements and less than a margin of variation |
| `Character.UnmeasuredAxisChatters` | analysis/character.py:186-195 | with one axis measured every other tick, every tick displaces though no measured value moves |
| `CommitmentState.ClvsComplement` | analysis/commitment.py:87-92 | bar by bar the two sides' close locations sum to 1 and are missing together |
| `CommitmentState.AcceptancesSumToOne` | analysis/commitment.py:106-111 | recent and overall acceptances of the two sides each sum to 1 |
| `CommitmentState.AgainstMarketIsAbandoned` | analysis/commitment.py:98-116 | with enough data the side opposed to a strict market is always raw ABANDONED |
| `CommitmentState.VerdictIs` | analysis/commitment.py:95-121 | a minute's raw verdict is COMMITTED, ABANDONED or NEUTRAL exactly on the stated comparisons of closes, fifty-bar mean, five-bar change and close locations, and unready short of fifty and three |
| `CommitmentState.CommittedMeansOtherAbandoned` | analysis/commitment.py:112-118 | one side raw COMMITTED implies the other raw ABANDONED |
| `CommitmentState.ReflectionSwapsSides` | analysis/commitment.py:87-120 | reflecting all prices about any pivot swaps the two sides' verdicts |
| `CommitmentState.RescalingKeepsVerdicts` | analysis/commitment.py:87-120 | no positive change of unit and no change of origin moves a verdict |
| `FiveMinute.Bars5m` | analysis/entry_snapshot.py:282-296 | the in-place loop's bars are the fold of the rows in the lookback into 300-second buckets, each closed by its last row, cut at the bars ended by t |
| `FiveMinute.BarsAre` | analysis/entry_snapshot.py:282-296 | of the six days up to the read, one bar for every ended five minutes that hold a row, with the close of the last of them, and no other |
| `FiveMinute.LaterReadSeesTail` | analysis/entry_snapshot.py:282-296 | a later read of the store sees, of the bars ended by t, a tail of what the read at t saw |
| `FiveMinute.UnendedBarIgnored` | analysis/commitment.py:98 | a 5m bar that has not ended by t is not among the closes at t |
| `CommitmentRun.ReadSides` | analysis/commitment.py:155-164 | the loop over the sides yields each side's verdict with its hysteresis |
| `CommitmentRun.TakeSnapshot` | analysis/commitment.py:123-165 | the snapshot from the bounded read is the one the whole tape gives, on the series long enough to judge |
| `CommitmentRun.BoundedReadExact` | analysis/commitment.py:140-164 | any read of at least CLV_BARS + 1 rows gives the verdicts of the last two minutes that the whole tape gives |
| `CommitmentRun.EightRowsAreTooFew` | analysis/commitment.py:106-107 | a tape on which CLV_BARS rows give a different previous verdict |
| `CommitmentRun.NeverCommittedToAbandoned` | analysis/commitment.py:155-164 | within a session a side never steps from COMMITTED straight to ABANDONED |
| `CommitmentRun.AbandonmentDelayedAtMostOneBar` | analysis/commitment.py:161-164 | emitted differs from raw exactly on that step, where it is NEUTRAL; an abandonment that persists is emitted one bar later |
| `CommitmentRun.EarlierMinuteRejudged` | analysis/commitment.py:149-160 | a later read judges the previous minute as the earlier read did while it still sees fifty closes |
| `CommitmentRun.NeverCommittedToAbandonedLive` | analysis/commitment.py:155-164 | on one store read afresh at each minute the hysteresis holds while fifty closes of the earlier minute are still seen |
| `CommitmentSnapshots.EmitsAt` | analysis/commitment.py:123-165 | the snapshot taken at a minute, series chosen then, emits the state the run theorems speak of |
| `CommitmentSnapshots.CommittedToAbandonedIff` | analysis/commitment.py:140-164 | after a committed snapshot the next of the session is ABANDONED if and only if it is raw so and the minute before no longer has fifty closes with the market and the momentum |
| `CommitmentSnapshots.OnOneSeriesFiftyCloses` | analysis/commitment.py:148-160 | while the series does not change, that is if and only if fewer than fifty of its closes are still seen |
| `CommitmentSnapshots.SwitchOfSeriesLosesTheDamping` | analysis/commitment.py:148-152 | stores on which the series switches and a session steps from COMMITTED straight to ABANDONED |
| `CommitmentSnapshots.FortyNineClosesLoseTheDamping` | analysis/commitment.py:97-100 | a store on which it does so on one series, with forty-nine closes left for the minute before |
| `CommitmentRun.FutureBarIgnored` | analysis/commitment.py:97-99 | a 5m bar that ends after the minute does not influence its verdict |
| `CommitmentGate.Recorder.Observe` | analysis/commitment.py:173-187 | a tick appends a row only for a side whose bar is new, and keeps rows and memory equal to the latch |
| `CommitmentGate.OneRowPerSidePerBar` | analysis/commitment.py:179-184 | over bars that do not go back each side records each bar it was shown exactly once |
| `CommitmentGate.GateLog.Gate` | analysis/commitment.py:197-247 | the entry is refused exactly for a directional entry on an ABANDONED side, in trade mode, on a paper box; the row written |
| `CommitmentGate.RefusedIff` | analysis/commitment.py:197-223 | an entry is refused if and only if it is one of the five directional strategies', on a paper box that trades the gate, and the side it takes by its direction or its option reads ABANDONED |
| `CommitmentGate.GateRun` | analysis/commitment.py:197-247 | over any sequence of calls, the log and the refusals are those of the calls one by one |
| `CommitmentGate.OneRowPerDirectionalCall` | analysis/commitment.py:224-236 | one row per directional call, in order, and a BLOCKED row exactly where the entry was refused |
| `CommitmentGate.LiveBoxRefusesNothing` | analysis/commitment.py:222-223 | only a directional entry of a paper box in trade mode is ever refused |
| `CommitmentGate.AdmittedAgainstMarket` | analysis/commitment.py:155-164 | an admitted readable entry against the market had its side raw COMMITTED on the previous bar of the session, or lacked close locations |
| `CreditBook.TradeBook.CanOpenCreditSpread` | main.py:3813-3928 | an empty or unreadable book admits, one readable leg admits exactly the second leg on its terms, two of different sides admit nothing |
| `CreditBook.TradeBook.AttemptSweepOnGrant` | main.py:5028-5048 | nothing while any vertical of the sweep is open; else the granted leg, without the gate |
| `CreditBook.TradeBook.Handle` | main.py:4719-4783 | one attempt, grant or close moves the book by the step function: dispatch, gate, fill |
| `CreditBook.FirstLegOpensIff` | main.py:4719-4783 | into an empty or unreadable book every attempt that fills, has a contract on its side and is valid on the dispatch puts exactly its leg |
| `CreditBook.SecondLegOpensIff` | main.py:3813-3928 | onto legs of one side such an attempt adds its leg if and only if, in its own fields, it is a sweep off the trend path, on the other side, on a live rejection and uncrossed |
| `CreditBook.ThirdLegNeverOpens` | main.py:3850-3853 | beside legs of both sides nothing opens |
| `CreditBook.GrantOpensIff` | main.py:5034-5048 | a grant adds its leg if and only if it fills, has a contract and every open leg is a trend spread's |
| `CreditBook.CloseRemovesOnly` | database/trade_logger.py:775-800 | a close takes out the legs of its identity and keeps the others in order |
| `CreditBook.FirstLegAlwaysAdmitted` | main.py:3876-3878 | with nothing open, or the sides unreadable, anything is admitted |
| `CreditBook.SecondLegAdmittedIff` | main.py:3850-3928 | a second leg is admitted if and only if it is a sweep on the other side of a known trigger, reclaimed, not invalidated, 1 to 5 bars old, and uncrossed wherever that can be verified |
| `CreditBook.ThirdLegRefused` | main.py:3850-3853 | nothing joins two legs of different sides |
| `CreditBook.EveryPairWasFormed` | main.py:3813-3928 | over every history at most two legs, and two only as a pair formed on top of its first leg |
| `CreditBook.StructureLaw` | main.py:3637-3928 | over every history: at most two, never two of a side, the second a sweep on a live rejection, and price between the short strikes when the pair was formed |
| `CreditBook.StepKeepsShapeIff` | main.py:3656-3663 | one event keeps the book to two legs of different sides if and only if it is not a blind addition that finds no room |
| `CreditBook.ShapeKeptIff` | main.py:3637-3928 | over every history, grants and unreadable tables included, the shape holds throughout if and only if every blind addition finds room |
| `CreditBook.ThreePutsWhenUnreadable` | main.py:3662-3663 | a history of unreadable reads that ends with three puts |
| `CreditBook.UnverifiableGeometryPasses` | main.py:3901-3902 | strikes that cannot be compared pass: a put sold above price |
| `CreditBook.HandoffBreaksShapeIff` | main.py:5034-5048 | a grant breaks the shape if and only if no vertical of the sweep is open and the book is full or holds its side |
| `CreditBook.HandoffBesideATrendPut` | main.py:5034-5048 | beside one trend put a granted put makes two of a side and a granted call a pair without a rejection, both refused by the gate |
| `Reconcile.FateBySets` | main.py:6887-6906 | what a pass does with a row, as a law of its leg sets and the broker's symbols |
| `ReconcileRows.LegsOfRow` | execution/broker_reconcile.py:270-297 | a vertical is short and long its two symbols, a butterfly short its centre and long its wings, any other row has its one leg in its own direction |
| `ReconcileRows.ParsesIff` | execution/broker_reconcile.py:97-113 | a symbol parses if and only if, but for blanks behind it, it ends in six digits, C or P, and eight digits |
| `ReconcileRows.LastPositionIsFiled` | main.py:6876 | a symbol listed more than once is read as its last position |
| `Reconcile.TradesTable.AdoptLegs` | main.py:6909-6912 | the long legs held and parsable are appended as rows, in order, with fresh identities |
| `Reconcile.TradesTable.ReconcileRow` | main.py:6887-6924 | one row is kept, closed, or closed with its held long legs adopted, and no other row is touched |
| `Reconcile.TradesTable.IntradayReconcile` | main.py:6846-6931 | the loop's table is the kept rows followed by the adopted ones; an empty or failed read changes nothing |
| `ReconcileRows.RowSurvivesIff` | main.py:6887-6906 | a row is open after a pass if and only if it has no legs, or a leg of it is held and its short leg, if any, is; else nothing carries its identity |
| `ReconcileRows.AdoptedExactly` | main.py:6903-6913 | a symbol is adopted if and only if it parses and is a held long leg of a row whose short leg is gone |
| `ReconcileRows.AdoptedIsTheHolding` | execution/broker_reconcile.py:124-166 | an adopted row is one leg in the holding's symbol, direction and quantity |
| `ReconcileRows.BrokenButterfly` | main.py:6900-6913 | a butterfly without its body at the broker is closed and exactly its held wings that parse are adopted, each once |
| `Reconcile.CoverageExact` | main.py:6876-6913 | a held symbol stays covered if and only if it was covered and either parses or is on a kept row |
| `Reconcile.UnparsedLegIsUncovered` | main.py:6909-6913 | a reading on which a stripped vertical's held long leg does not parse, and ends covered by no row |
| `Reconcile.CoverageConserved` | main.py:6846-6931 | covered symbols never grow, so no symbol that was not managed is adopted, and are the same set when every symbol parses |
| `Reconcile.SurvivorsAreSound` | main.py:6894-6906 | no row open after a pass is wholly absent at the broker, nor a long leg without its short |
| `Reconcile.ReconcileIdempotent` | main.py:6846-6931 | a second pass on the same reading changes nothing |
| `Reconcile.AdoptedOncePerStrippedRow` | main.py:6906-6912 | a held long leg is adopted once for each stripped row that holds it |
| `Reconcile.ManagedAfter` | main.py:6887-6913 | the contracts managed in a held symbol after a pass are the kept rows' and the broker's whole quantity once per stripped row that held it |
| `Reconcile.QuantityConservedIff` | main.py:6903-6913 | they are conserved if and only if the stripped rows' contracts in the symbol amount to that |
| `Reconcile.AgreeingBooksConservedIff` | main.py:6903-6913 | when the broker holds what the rows manage, if and only if no stripped row holds the leg, or one does and no kept row manages it |
| `Reconcile.SharedLegIsOverAdopted` | main.py:6906-6912 | a reading of the broker with a stripped and a kept vertical on one long leg: two contracts become three |
| `Reconcile.ManualLotIsAdopted` | main.py:6846-6853 | a reading of the broker on which a lot bought by hand in a stripped vertical's long leg is adopted with it |
| `Dispatch.Dispatcher.SafeStrategy` | main.py:3393-3455 | a strategy is evaluated only if admitted, not dormant and not retired; a raise comes back as no signal |
| `Dispatch.Dispatcher.OnePerSessionUsed` | database/trade_logger.py:709-734 | the count of the plan's rows, or 1 when it fails, reads as used if and only if the table cannot be counted or some row of the plan is dated today or later |
| `Dispatch.Dispatcher.AttemptButterfly` | main.py:5081-5183 | both caps are read before either butterfly is asked, and the second is asked only if the first gave no signal; the whole state after |
| `Dispatch.Dispatcher.AttemptNewEntry` | main.py:4160-4342 | a whole tick, stale globals and raising executions included, is the tick function of the state before |
| `DispatchActs.SignalsAreTradedIff` | main.py:4387-4955 | a question is followed by an execution if and only if the strategy signalled, is not recorded only, and its doors are open: the debit block, the sweep's validity, the credit gate |
| `DispatchActs.ExecutedThroughOpenDoors` | main.py:4948-4954 | whatever executed had its question and signal just before it and its doors open, and filled as the placement says |
| `DispatchActs.TradesAreFilledExecutions` | main.py:4160-4342 | the rows a tick adds are exactly its filled executions, in order and dated its day |
| `DispatchActs.AskedIff` | main.py:4343-4955 | under the cap a strategy is asked if and only if the tick reaches its stage, it is entitled by admission and awake, and the source's own test before it holds |
| `DispatchActs.AskedAtTheCapIff` | main.py:4327-4342 | at the loss cap PARK and the butterflies are asked on the same terms, and only with admission computed |
| `DispatchActs.UnenteredBefore` | main.py:5186-5196 | the once-a-session test of a capped plan is one of the table as the tick found it |
| `Dispatch.Dispatcher.RunCascade` | main.py:4552-4955 | the straight-line cascade, abandoned by a raise past an unguarded site, is the fold of its stages |
| `Dispatch.RaiseIsADecline` | main.py:3393-3455 | replacing evaluations that raise by ones that decline leaves the whole tick, executions and rows unchanged |
| `Dispatch.UnguardedRaiseEndsTheTick` | main.py:4387-4418 | when a tick is abandoned its last act is the execution that raised, and so conversely |
| `Dispatch.AbandonedIff` | main.py:4387-4418 | a tick is abandoned if and only if some stage is reached whose unguarded execution raises: at the loss cap, PARK's |
| `Dispatch.RaiseOnlyCutsShort` | main.py:4552-4955 | a raising execution only cuts the tick short: what came before stands, and an unabandoned tick is the one without raises |
| `Dispatch.SilencedByARaise` | main.py:4577-4618 | a world in which an admitted strategy is asked, and is not once the first execution raises |
| `Dispatch.TickInOrder` | main.py:4552-4955 | every act is a question further down the cascade or the execution of the question just asked |
| `Dispatch.AskedAtMostOnce` | main.py:4552-4955 | no site is asked or executed twice in a tick |
| `Dispatch.OnlyThisTicksAdmission` | main.py:4161-4168 | the tick does not depend on the leftover admitted or observed sets, everything asked was admitted this tick, and what is only observed or switched to LOG is never executed, with an admission table or without |
| `Dispatch.LeftoverReachesTheSecondLegIff` | main.py:6570-6584 | the leftover set can change the second-leg window's answer if and only if the rules table cannot be read |
| `Dispatch.AtTheCap` | main.py:4327-4342 | at the loss cap only PARK and the butterflies are asked, and nothing when the table was not computed |
| `Dispatch.OneButterflyPerTick` | main.py:5143-5181 | once the pin butterfly has executed the other is not even asked that tick |
| `Dispatch.OneEntryPerSession` | main.py:5186-5196 | over every run of ticks and restarts, each of Runaway, PARK and the two butterflies enters at most once a day |
| `Dispatch.UncountableAsksNone` | database/trade_logger.py:709-734 | a table that cannot be counted lets none of the four be asked |
| `Dispatch.EveryAdmittedSiteIsAskedIff` | main.py:4352-4383 | whatever fired before, an admitted strategy under its cap is asked if and only if no execution raised past its site at an earlier stage |
| `Dispatch.AskedWhenQuietBefore` | main.py:4352-4383 | so it is asked whenever no unguarded site earlier in the cascade has an execution that raises |
| `Dispatch.SecondButterflyIsAskedIff` | main.py:5143-5181 | the second butterfly is asked if and only if the tick got to the butterflies and the pin butterfly gave no signal |
| `Dispatch.SecondButterflyAtTheCapIff` | main.py:4336-4342 | likewise at the loss cap, after PARK |
| `Dispatch.LoggedPinStillTakesTheTick` | main.py:5151-5170 | a pin signal of a plan switched to LOG executes nothing and still keeps the second butterfly from being asked |
| `Ladder.BuildRungs` | execution/entry_ladder.py:189-268 | the loop builds exactly the table: from the opening rung down by increments, capped at 24, ending at mark |
| `Ladder.RungsDescend` | execution/entry_ladder.py:246-268 | rungs fall strictly, are positive and not under mark, and end at mark snapped in our favour |
| `Ladder.OpensAQuarterIn` | execution/entry_ladder.py:243-244 | the first rung is a quarter of the spread in from the ask, rounded by less than an increment in our favour |
| `Ladder.RungsStep` | execution/entry_ladder.py:246-268 | the table steps an increment at a time for at most 24 rungs down to its last one |
| `Ladder.OfferIsNotWorseThanMark` | execution/entry_ladder.py:325-337 | whatever the walk has been through, the next price is positive and not under mark |
| `Ladder.ReofferedIff` | execution/entry_ladder.py:312-331 | the next price reaches the best refusal if and only if the terminal rung does, and is then mark |
| `Ladder.RefusedStaysOffTheTable` | execution/entry_ladder.py:312-359 | over any refusals on one structure, a refused price returns if and only if mark has risen to some refusal |
| `Ladder.SteadyBookWalksTheTable` | execution/entry_ladder.py:283-359 | in a book that does not move every rung is offered once, in order, and then mark for good |
| `Ladder.MarkBringsARefusalBack` | execution/entry_ladder.py:325-331 | a book in which a refused price is offered again |
| `CreditRung.StructureMark` | main.py:2701-2706 | the structure's mark is at least short.mid minus long.mid, with equality if and only if neither clamp binds |
| `CreditRung.StructureQuoteIsTheRange` | main.py:2701-2706 | the structure's bid and ask are the worst and the best of what its two contracts can bring inside their quotes, cut off at zero |
| `CreditRung.Registry.PriceFor` | execution/ladder_registry.py:135-171 | prices a key's walk, beginning or re-tagging it, and touches no other key; an unusable quote does nothing |
| `CreditRung.Registry.PostCreditVertical` | main.py:2678-2823 | one rung: no order at or below zero, the guards, the order, then clear or refuse; other walks untouched |
| `CreditRung.PostsAtMarkOrBetter` | main.py:2707-2727 | nothing is posted at or below zero, nor under the structure's mark when its quote is usable |
| `CreditRung.NeverOfferedUnderTheMids` | main.py:2688-2691 | a live vertical is never offered under the credit paper books from the same quotes |
| `CreditWalk.WalkIsTold` | main.py:2789-2823 | over every run of postings and drops the walk exists, stands on its rung and remembers a price exactly as the log says |
| `CreditWalk.RungCountsMisses` | main.py:2804-2822 | between clears and drops the rung reached is the number of placed orders that did not fill whole |
| `CreditWalk.LimitsFallOnAStructure` | execution/entry_ladder.py:283-359 | a posting reaches a limit missed on its structure since the walk last ended if and only if the terminal rung does, or the fallback when the quote is not usable; on a usable quote it is then mark |
| `CreditWalk.NewLimitIsUnderEveryMiss` | execution/entry_ladder.py:283-359 | between clears and drops, on one structure, a new limit is under every limit the walk saw miss, unless the terminal rung, or the fallback when the quote is not usable, reaches one |
| `CreditWalk.DropBringsAMissBack` | execution/ladder_registry.py:80-116 | in a book that does not move, 1.15 is missed, the walk is dropped and 1.15 is posted again with the terminal rung at 1.10 |
| `CreditWalk.FallbackGoesOverAMiss` | main.py:2715-2727 | 1.00 is missed and then, without a usable quote, 2.00 is posted on the same structure with the walk alive |
| `CreditRung.FallbackIsPostedAgain` | execution/ladder_registry.py:154-185 | with no usable quote the same rung is posted whatever the walk, and with no walk a refusal moves nothing |
| `CreditRung.NextRungIsLower` | execution/entry_ladder.py:312-359 | after a refusal on a structure, a price no lower than the refused one is mark itself |
| `CreditRemainder.ExecuteCondorLeg` | main.py:2959-3016 | a position is opened exactly for what was confirmed filled at a price, with the entry's own figures |
| `CreditRemainder.WhatBecomesOfARung` | main.py:2727-2802 | a positive limit is held back exactly when the guards are not clear or the account cannot afford the most its contracts can lose at it; what is sent is refused or answered as the venue does |
| `CreditRemainder.Position.AccreteFill` | execution/credit_remainder.py:122-154 | a fill is folded into the row: contracts, blended credit, loss, stop and what remains |
| `CreditRemainder.Position.SupervisePass` | execution/credit_remainder.py:163-215 | a pass ends the remainder, waits, or posts one rung for what is left and folds in what filled |
| `CreditRemainder.RemainderStaysIff` | execution/credit_remainder.py:163-215 | the remainder is worked on exactly while a part is unbooked and nothing called it off, and is less by what the pass booked |
| `CreditRemainder.RemainderPostsIff` | execution/credit_remainder.py:163-205 | nothing is booked or bought by a pass but while the remainder is worked, listed and quoted |
| `CreditRemainder.DroppedWalkStartsOver` | execution/ladder_registry.py:80-116 | a pass whose walk was dropped starts at the opening rung again, and any other goes on where its walk was |
| `CreditRemainder.EnterBalances` | main.py:3012-3038 | a row as booked agrees with its fill |
| `CreditRemainder.EveryPassBalances` | execution/credit_remainder.py:122-215 | over every run of passes contracts equal the fills' sum, blended credit times contracts the cash, and the loss its formula |
| `CreditRemainder.BookedPlusRemaining` | execution/credit_remainder.py:122-215 | from the entry on, against venues that never report more than was posted, booked plus remaining is what was asked for |
| `CreditRemainder.BookedPlusRemainingIff` | execution/credit_remainder.py:147 | in general if and only if no pass books more than was left when it posted |
| `CreditRemainder.OverReportBreaksTheCount` | execution/credit_remainder.py:147 | a venue that reports five where one was posted leaves six booked of two |
| `CreditRemainder.HeldIsBooked` | execution/credit_remainder.py:163-215 | with truthful confirmations the broker holds what the row says, never more than was asked, and nothing is lost between booked and remaining |
| `CreditRemainder.HeldBeyondBooked` | execution/credit_remainder.py:163-215 | against any venues the broker holds beyond the row exactly what the postings did beyond what they booked |
| `CreditRemainder.UnreadFillIsPostedAgain` | execution/order_confirm.py:159-168 | after a fill the confirmation could not read, the broker ends up with more than was asked |
| `CreditRemainder.CreditColumnNeverMoves` | execution/credit_remainder.py:142-146 | no pass restates the credit column |
| `CreditRemainder.CreditColumnIsTheBasisIff` | execution/credit_remainder.py:142-146 | from the entry on it is the first fill's credit, and states the row's basis if and only if the later fills collected that credit on average |
| `CreditRemainder.AccretionKeepsTheStopIff` | execution/credit_remainder.py:141 | over every run the row carries its entry's stop rule if and only if nothing was folded in or the fills balance collected credit and risk left at the two percentages |
| `CreditRemainder.ShippedSweepStopIff` | main.py:2855-2878 | as shipped, that is if and only if the credit collected is half the width of what was filled |
| `CreditRemainder.SweepStopTightens` | strategy/criteria.py:182-207 | a 5-wide sweep at 1.00 booked with a 1.60 stop and restated at 1.15 |
| `Wrap.WrapText` | query.py:1011-1020 | the loop's lines are the greedy lines, cut at six with a note |
| `Wrap.SplitAtBlanks` | query.py:1011 | a text is cut into words at every blank |
| `Wrap.SplitOfOne` | query.py:1011 | and a stretch without one is a word |
| `Wrap.TruncationCountsDropped` | query.py:1020 | at most seven lines are shown and the note names exactly how many were dropped |
| `Wrap.LinesAreGroups` | query.py:1012-1019 | every line is its group of words joined by single blanks |
| `Wrap.WrapKeepsWords` | query.py:1012-1019 | no word is lost, repeated or moved, and a blank line can only be the first, exactly when the first word is as long as the width |
| `Wrap.GroupsFit` | query.py:1014-1017 | if every word fits the width every line does |
| `Wrap.WrapMinimalIff` | query.py:1011-1020 | for words that fit, greedy uses the fewest lines of any order-preserving split if and only if the first word is shorter than the width |
| `TriggerMap.Build` | analysis/condor_trigger_map.py:76-130 | the loop's map is the two triggers of every usable frame, in order; empty without a positive price |
| `TriggerMap.MapIs` | analysis/condor_trigger_map.py:85-130 | each frame read adds its call on the upper rail and its put on the lower, triggered the approach fraction of the way there from the midline and active once price has reached it; any other adds nothing |
| `TriggerMap.BothActiveIff` | analysis/condor_trigger_map.py:106-126 | some price makes a frame's call and put both active if and only if the fraction is not positive and the put trigger is |
| `TriggerMap.NeverBothActive` | analysis/condor_trigger_map.py:106-126 | with a positive fraction no frame of any map has both its triggers active |
| `TriggerMap.RaisingPrice` | analysis/condor_trigger_map.py:85-126 | raising price never drops an active call of the map, and adds no active put if and only if the lower price was positive, or the higher is not, or no put is reached |
| `TriggerMap.MissingPriceAddsAPut` | analysis/condor_trigger_map.py:85-88 | a price read as zero, raised to 1, adds an active put |
| `TriggerMap.TranslationOfFrame` | analysis/condor_trigger_map.py:106-126 | moving price and rails together keeps activity if and only if the midline is not carried across zero |
| `TriggerMap.TranslationOfMap` | analysis/condor_trigger_map.py:85-126 | the built map's activity survives the move if and only if no midline and no price is carried across zero, or the map was empty |
| `TriggerMap.MovingThePriceBelowZeroDropsAPut` | analysis/condor_trigger_map.py:85-88 | a move that keeps every midline positive and drops an active put |
| `TriggerMap.SortSorts` | analysis/condor_trigger_map.py:58-61 | the active triggers come out by distance, none lost and none added |
| `TriggerMap.FirstIsEarliestNearest` | analysis/condor_trigger_map.py:61-69 | the first is the earliest of the nearest, as a stable sort leaves it |
| `TriggerMap.BestIsNearest` | analysis/condor_trigger_map.py:58-69 | best exists if and only if something is active on the side, and no active rail of the side is nearer |
| `EntryEnd.Switch.WindowEnd` | config.py:833-848 | every result is within 09:36 and the entries stop; an accepted switch is its value, any other is 10:30 and is remembered as refused |
| `EntryEnd.FieldsAreCutAtColons` | config.py:864-879 | a switch is cut at every colon, empty fields included |
| `EntryEnd.PrintReadRoundTrip` | config.py:1097-1098 | a printed time reads back as itself and is accepted if and only if it is allowed |
| `EntryEnd.ReadPrintNormalises` | config.py:864-879 | printing what was read gives a form that reads as the same time |

## Left out

- Order placement, the broker SDK, sqlite, files, alerts, journals and logging: they are the functions and flags of a world, a venue or a read.
- Strategies, risk sizing, position management and exits: abstract answers. The opening-range credit spread is in the dispatch cascade, with its several legs written as one row, and absent from the credit book, as the gate's own table reads leave it out; the geometry read at main.py:3885 does not, and that is not modelled.
- CreditBook.StructureLaw: over the gated paths (main.py:4763, 4948, 6581) with readable sides; what a handoff grant and an unreadable table do to the shape is `ShapeKeptIff`. Rolls are not modelled.
- CreditBook.TradeBook.AttemptSweepOnGrant: the position manager's records and the trades table are one book, and a leg that is not a trend spread is the sweep's.
- Float rounding: the `round(.., 4)` of the snapshot rows and ladder prices and the 1e-9 slack of the ladder's snaps and comparisons.
- Dispatch.RaiseIsADecline: what a raising strategy did to its own state before raising is taken to be what a declining one does.
- Dispatch.OneEntryPerSession: a fill is taken to write its row before the next check, as the paper path and a confirmed live fill do.
- Dispatch.Dispatcher.AttemptNewEntry: the opening-range engine's re-arming, the marking of a played pin and the consuming of a handoff grant are left to the world's answers; the plan-board rows are left out.
- Ladder.BuildRungs: the buying side, with its one-increment exception at a zero mark, and the stop escalation that does not walk are not modelled; a credit vertical only sells.
- CreditRung.Registry.PriceFor: the hour after which an untouched walk is dropped is an event of the environment (`CreditWalk.Dropped`, `walkDropped`), not a clock.
- CreditRemainder.Position.SupervisePass: one remainder at a time; the source's loop treats each key alone. Restarts lose a remainder and are not modelled.
- CreditRemainder.ShippedSweepStopIff: the two percentages are the shipped 0.15; both can be moved by the environment.
- Reconcile.TradesTable.IntradayReconcile: the recovered fills of a phantom, the dropping of expired rows before the pass and the startup reconcile are left out; a row's two held long legs are adopted in a fixed order where the source walks an unordered set.
- Reconcile.ManagedAfter: a row manages each leg once per contract and a butterfly's body twice, as `_db_leg_quantities` says of itself; its code also counts `option_symbol`, which a vertical's row writes equal to `short_symbol`, and so expects twice the contracts in that short leg. The long legs agree, and the intraday pass does not read it.
- Reconcile.FateBySets: option symbols are fixed-width text; case folding beyond C, P, c and p and non-ASCII digits are not modelled.
- ReconcileSlot.BotState.ReconcileIfDue: the live and enabled switches around the block, and what a restart forgets.
- ChainArchive.ArchiveRun: the archived row is its bucket and contracts; the other fields of the line are left out. The memory of the last bucket is lost at a restart, after which its bucket is written again; the run has no restart.
- CommitmentGate.Recorder.Observe: the memory of the last bar of each side is lost at a restart, after which that bar is recorded again; the run has no restart.
- CommitmentRun.TakeSnapshot: the open of a 5m bar, which nothing reads, and the error texts; `SizeCall` and the caution counterfactual of analysis/commitment.py are left out.
- FiveMinute.Bars5m: the store is one row per minute, ascending.
- Efficiency.EfficiencyExact: over `real`; a close that is not a number is not modelled.
- EntryEnd.Switch.WindowEnd: fields are plain digits, where `int()` also takes signs, blanks and underscores; Breakout's switch is the same code.
- Wrap.WrapText: a word is a maximal run of characters other than blank, tab, newline and return.
- TriggerMap.Build: rails that cannot be read or converted are a frame without rails.
- status.py, the rendering in query.py outside `_wrap`, the configuration tables, the half-day calendar and time zones.
