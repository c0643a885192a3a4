# Verified model of the cam-follower kinematics and record store

The service computes the motion of a cam follower. A *law* gives a dimensionless displacement and its first three
derivatives in closed form; *kinematics* rescales a law by lift, angle and cam speed, mirrors it for the return stroke
and judges seams under a mixed tolerance; *cycle* stitches rise, outer dwell, return and inner dwell into one turn,
looks segments up by angle, samples the turn and reports every joint; *store* keeps recipes and cycle records in a
directory. This project models those four packages over exact real numbers and proves what they promise.

The central idea: every law starts and ends at rest, so the segment list, the order-sensitive lookup, the clamp and the
return mirror together compute one function, a difference of two clamped strokes (`CycleCurve.Height` and its slope
`CycleCurve.Rate`). `CyclePoint.PointIsCurve` ties `Point` to it, and the whole-turn theorems are proved for it by
rescaling and chaining smooth steps.

| file | content |
|---|---|
| `Reals.dfy`, `Smooth.dfy` | real arithmetic; quantitative smoothness of a step and how steps rescale and chain |
| `Trig.dfy` | the circle functions, the facts assumed of them, and what follows |
| `Law.dfy`, `LawShape.dfy`, `Derivatives.dfy` | the three laws and the shape they share |
| `Kinematics.dfy`, `LiftCurve.dfy` | one stroke: sampling, seams, the lift curve and its discrete integral |
| `Cycle.dfy`, `CycleCurve.dfy`, `CyclePoint.dfy` | the stitched turn, its direct definition, and the lookup |
| `WholeTurn.dfy`, `TurnAcceleration.dfy`, `TurnShape.dfy`, `CurveTags.dfy`, `Scaling.dfy` | theorems over the whole turn |
| `JointReport.dfy`, `JointClass.dfy` | what the joint report says and when |
| `Records.dfy`, `StoreRuns.dfy`, `PathOrder.dfy`, `Store.dfy` | records, the directory as a step machine with crashes, the store |

`math.Sin`, `math.Cos` and `math.Pi` are a parameter. Theorems about the cosine and cycloid laws assume
`Trig.Lawful`: values at 0 and pi, the unit circle, the addition formulas, |sin x| <= |x|, and on [0, pi] sin x >= 0 and
x cos x <= sin x. Everything else, including the second-order remainder of the exponential that the derivative theorems
need, is derived from these in `Trig.dfy`. The parabolic law needs none of it: `LawShape.Grounded` asks for the facts
only when a law uses them. Laws are named by a datatype whose constructor `Other` stands for every text that names no
law. A program loop is a method proved against a specification function; the closure that stitches segments is the
class `Cycle.Assembly`. Saving, reading and listing are the same code for recipes and cycle records, and are modelled
once over `Records.Record`.

## What the proofs found

- At exactly 360 degrees the lookup takes the last segment. When the angles add up to slightly more than a turn and an
  inner dwell is kept that begins after 360, the reported displacement drops to 0 there. `CyclePoint.Regular` is the
  exact condition under which this does not happen. `CyclePoint.LateDwell` is an accepted configuration that violates
  it, and `WholeTurn.LateDwellJumps` shows the two angles between which its displacement jumps.
- The documentation says that no legal cycle has a displacement jump (cam-follower/README.md:112). The slack on the
  angle sum makes this false: `JointReport.LateReturn` is an accepted configuration whose report shows a jump of the
  whole lift by `JointReport.LateReturnReport`, and `JointReport.JumpReportedExactly` says exactly when one is reported.
- The joint report looks only at what the segments say at 360 and at 0, so it misses the drop of an irregular turn.
  `JointReport.LateStart` is an accepted configuration that stays at the top up to 360, is reported at 0 there, and has
  every joint found continuous (`JointReport.LateStartReport`). `JointReport.ReportTellsTruth` is the exact condition:
  the report is right about the fall at 360 if and only if the turn is regular or the fall is within the tolerance.
- A comment says that the time of a point is theta / omega (cam-follower/internal/cycle/cycle.go:150). On a stroke the
  code reports the time at which the stroke starts. The model follows the code, and `LiftCurve.TimeLags` says exactly
  when the comment holds and when the reported time runs ahead: only at 360 degrees, when the return stroke has not
  started by then and no inner dwell is kept. `LiftCurve.LateReturnTime` shows it at an accepted configuration.
- A comment attributes an impulse to the third derivative of the parabolic law (cam-follower/internal/law/law.go:34).
  The code returns 0, and so does the model.

## Model

| member | source | states |
|---|---|---|
| LawShape.AtRest | cam-follower/internal/law/law.go:47-101 | every law is at rest at 0 up to time 0 and at rest at 1 from time 1 on |
| LawShape.SideFree | cam-follower/internal/law/law.go:85-101 | displacement and velocity are the same from either side at every time, the parabolic midpoint included |
| LawShape.LawIsSmooth | cam-follower/internal/law/law.go:47-101 | between any two times, clamped or not, displacement and velocity are Lipschitz and the velocity is the derivative of the displacement with an error bounded by the closed acceleration peak |
| LawShape.LawClimbs | cam-follower/internal/law/law.go:47-101 | displacement never decreases, across the parabolic branch switch and the clamp |
| LawShape.LawInRange | cam-follower/internal/law/law.go:47-101 | displacement stays between 0 and 1 |
| LawShape.LawLeavesZero | cam-follower/internal/law/law.go:47-101 | displacement is strictly positive after time 0 |
| LawShape.LawWithinPeaks | cam-follower/internal/law/law.go:111-125 | the closed peaks bound all three derivatives at every time, and velocity is never negative |
| LawShape.LawIsPointSymmetric | cam-follower/internal/law/law.go:40-101 | the second half of a law is its first half read backwards from the opposite side, in all four quantities; only a parabolic midpoint with no side named escapes in acceleration |
| Derivatives.LawDerivatives | cam-follower/internal/law/law.go:53-101 | inside each smooth piece the second derivative is the derivative of the first and the third that of the second |
| Derivatives.StrokeDerivatives | cam-follower/internal/kinematics/kinematics.go:78-128 | in dimensional terms, on rise and mirrored return, reported acceleration is the derivative of velocity (error bounded by the jerk peak) and jerk that of acceleration |
| Kinematics.Curve | cam-follower/internal/kinematics/kinematics.go:153-179 | the loop fills the whole grid with the closed form at each grid time and returns the closed peaks; it fails exactly on an invalid specification or an oversized grid |
| CyclePoint.StrokeSample | cam-follower/internal/kinematics/kinematics.go:78-128 | a sample from either side succeeds on a valid stroke and gives lift times law, or its mirror, and omega times its slope |
| TurnShape.SampleWithinPeaks | cam-follower/internal/kinematics/kinematics.go:140-150 | velocity, acceleration and jerk of any sample, rising or returning, from any side, stay within the closed peaks |
| LiftCurve.LiftWithinPeaks | cam-follower/internal/kinematics/kinematics.go:140-179 | every sampled lift point stays within the closed peaks |
| LiftCurve.PeaksAreAttained | cam-follower/internal/kinematics/kinematics.go:137-179 | when the number of steps is a multiple of four all three closed peaks are attained on the grid |
| LiftCurve.VelocityIntegratesToDisplacement | cam-follower/internal/kinematics/kinematics.go:153-179 | for the parabolic lift every prefix of the trapezoid sum of velocity over time equals the sampled displacement, less h/(n-1)^2 past the switch when the midpoint is off the grid |
| LiftCurve.WholeLiftIntegral | cam-follower/internal/kinematics/kinematics.go:153-179 | the whole sum is h on an odd number of points and h(1 - 1/(n-1)^2) on an even one, for every n >= 2 |
| JointReport.AgreeWithRest | cam-follower/internal/kinematics/kinematics.go:194-201 | a quantity agrees with 0 exactly when all but its relative share is under the absolute floor |
| LiftCurve.LoneLiftSeam | cam-follower/internal/kinematics/kinematics.go:229-247 | the seam of a lone parabolic lift has the same sides and verdicts as the switch joint of the rise in a turn |
| Cycle.Assembly.Push | cam-follower/internal/cycle/cycle.go:105-114 | the closure appends a segment starting at the current position and advances it, or does nothing for a zero angle |
| Cycle.Build | cam-follower/internal/cycle/cycle.go:99-120 | building succeeds exactly on a valid configuration and gives the stitched list and its total angle |
| CyclePoint.ListTilesTurn | cam-follower/internal/cycle/cycle.go:99-120 | the list starts with the rise at 0, each end is the next start, each length is a positive angle, and the last end is the total, within the slack of a turn |
| CyclePoint.ListInOrder | cam-follower/internal/cycle/cycle.go:99-120 | a kind is present exactly when its angle is positive, once, in stitching order |
| Cycle.Segments.FirstHit | cam-follower/internal/cycle/cycle.go:131-140 | the result is a hit of the pass with no earlier hit, or the list length when there is none |
| Cycle.Segments.Locate | cam-follower/internal/cycle/cycle.go:126-142 | the two search loops and the fall-through return the specified segment |
| CyclePoint.LocateCovers | cam-follower/internal/cycle/cycle.go:122-142 | below 360, and at 360 on a regular turn, the located segment describes the curve at that angle, whatever way a tie goes |
| CyclePoint.SegmentMatchesCurve | cam-follower/internal/cycle/cycle.go:208-223 | wherever a segment covers an angle both its sides give the displacement and velocity of the curve, so the tie-break selects acceleration and jerk only |
| CycleCurve.CurveIsFourPieces | cam-follower/internal/cycle/cycle.go:1-6 | the difference of two clamped strokes is the direct four-piece definition of the turn, in height and slope, at every angle |
| CyclePoint.PointIsCurve | cam-follower/internal/cycle/cycle.go:151-172 | below 360, and at 360 on a regular turn, Point succeeds with the displacement and velocity of the curve |
| CyclePoint.IrregularEnd | cam-follower/internal/cycle/cycle.go:126-129 | on an irregular turn 360 degrees is reported at rest at 0 |
| CycleCurve.TurnIsSmooth | cam-follower/internal/cycle/cycle.go:99-172 | the curve is one smooth step between any two angles, across every stitch, with the larger of the two strokes' bounds |
| WholeTurn.TurnPeaks | cam-follower/internal/kinematics/kinematics.go:137-150 | the larger closed peaks of the two strokes are omega and omega squared times the turn's slope and curvature bounds |
| WholeTurn.WholeTurnSmooth | cam-follower/internal/cycle/cycle.go:151-172 | between any two angles of a regular turn the reported velocity over omega is the derivative of the reported displacement with error AMax/(2 omega^2) times the squared angle, displacement is VMax/omega-Lipschitz, and velocity AMax/omega-Lipschitz |
| WholeTurn.SmoothExactlyWhenRegular | cam-follower/internal/cycle/cycle.go:126-172 | the Lipschitz bound holds for all pairs of angles if and only if the turn is regular, and so does the derivative bound |
| WholeTurn.IrregularJump | cam-follower/internal/cycle/cycle.go:126-172 | an irregular turn has a pair of angles that breaks both bounds |
| CyclePoint.LateDwell | cam-follower/internal/cycle/cycle.go:71-74 | the slack on the angle sum accepts an irregular turn |
| WholeTurn.LateDwellJumps | cam-follower/internal/cycle/cycle.go:126-172 | at that turn two angles break both bounds |
| WholeTurn.PointRange | cam-follower/internal/cycle/cycle.go:151-158 | Point fails exactly below 0 and above 360 plus the slack, as out of range, and from 360 on it answers like 360 |
| TurnAcceleration.CycloidTurnSmooth | cam-follower/internal/cycle/cycle.go:151-172 | when both laws are cycloids and the turn is regular or its return starts at 360 or later, between any two angles the reported acceleration has no jump (it is JMax/omega-Lipschitz) and over omega is the derivative of the reported velocity with error JMax/(2 omega^2) times the squared angle |
| TurnAcceleration.DerivativeExactlyWhenAtRest | cam-follower/internal/cycle/cycle.go:126-172 | for two cycloids that derivative bound holds for all pairs of angles if and only if the turn is regular or its return starts at 360 or later |
| TurnAcceleration.UnfinishedJump | cam-follower/internal/cycle/cycle.go:126-172 | otherwise an angle near 360 breaks it |
| WholeTurn.ArrivalHeight | cam-follower/internal/cycle/cycle.go:151-172 | on every turn, regular or not, the reported displacement below 360 runs towards the stitched height at 360 |
| TurnAcceleration.SegmentMatchesCurl | cam-follower/internal/cycle/cycle.go:208-223 | for such turns every segment that covers an angle gives the same acceleration from both sides, so the tie-break selects the jerk only |
| TurnAcceleration.TurnJerkPeak | cam-follower/internal/kinematics/kinematics.go:137-150 | the larger closed jerk peak is omega cubed times the turn's bound on the third derivative |
| TurnAcceleration.BetweenJoints | cam-follower/internal/cycle/cycle.go:151-172 | for all laws, strictly between two joints the reported acceleration is the derivative of the reported velocity and the reported jerk that of the acceleration |
| WholeTurn.TurnCloses | cam-follower/internal/cycle/cycle.go:151-172 | the turn starts at rest at 0, ends at 0 exactly when an inner dwell is kept or the angles do not exceed a turn, and otherwise ends at h y((sum - 360)/beta) |
| TurnShape.MotionShape | cam-follower/internal/cycle/cycle.go:151-172 | at every angle up to 360 displacement stays in [0,h], velocity is nonnegative up to the return and nonpositive from the end of the rise, and the follower rests between the strokes and after them; between them it is at h, except exactly at 360 when an inner dwell is kept and the return has not started |
| TurnShape.MotionIsMonotone | cam-follower/internal/cycle/cycle.go:151-172 | for all pairs of angles up to 360 displacement never increases after the rise, and up to the return start never decreases, except exactly into 360 when an inner dwell is kept |
| TurnShape.DwellIsStill | cam-follower/internal/cycle/cycle.go:122-148 | a kept dwell answers at both its ends, with its level, no velocity, acceleration or jerk, and time theta/omega; at 360 this is claimed of the inner dwell alone, which answers there wherever it starts and ends |
| TurnShape.MotionWithinPeaks | cam-follower/internal/cycle/cycle.go:151-172 | no reported derivative exceeds the closed peaks of the segment that answers |
| TurnShape.TurnReverses | cam-follower/internal/cycle/cycle.go:99-172 | swapping the laws and the motion angles and running backwards from the end of the return gives the same displacement and the opposite velocity, at every pair of mirrored angles of a regular turn and at those below 360 of any turn |
| TurnShape.SegmentReverses | cam-follower/internal/cycle/cycle.go:208-223 | segment by segment and side by side the reversal keeps displacement and acceleration and negates velocity and jerk |
| Scaling.TurnIsHomogeneous | cam-follower/internal/kinematics/kinematics.go:71-99 | scaling lift by r and speed by k scales the whole reported turn by r, r k, r k^2, r k^3 and time by 1/k |
| Scaling.SameLookup | cam-follower/internal/cycle/cycle.go:126-142 | the lookup depends on kinds and angles only |
| LiftCurve.LiftAgreesWithTurn | cam-follower/internal/cycle/cycle.go:165-166 | strictly inside the rise the turn reports what the lift curve samples in all four quantities; its time is that of the segment's start |
| LiftCurve.TimeLags | cam-follower/internal/cycle/cycle.go:150-168 | the reported time never runs backwards, is theta/omega exactly on dwells and at the start of a stroke, and stays at or below theta/omega exactly when the angle is under 360, an inner dwell is kept or the return has started by 360 |
| LiftCurve.LateReturnTime | cam-follower/internal/cycle/cycle.go:158-168 | an accepted configuration reports a time past 360/omega at 360 |
| Cycle.Segments.Curve | cam-follower/internal/cycle/cycle.go:181-198 | the loop samples every grid angle with its tag and fails exactly on an oversized grid or a point that fails |
| CurveTags.GridCoversTurn | cam-follower/internal/cycle/cycle.go:188-190 | the grid runs strictly upward from 0 to exactly 360 |
| CurveTags.CurveNeverFails | cam-follower/internal/cycle/cycle.go:181-198 | Point succeeds at every grid angle of a stitched turn |
| CurveTags.LocateIsMonotone | cam-follower/internal/cycle/cycle.go:126-142 | a later angle is never answered by an earlier segment |
| CurveTags.TagsAreBlocks | cam-follower/internal/cycle/cycle.go:181-198 | the tags of a sampled turn are blocks in stitching order |
| CurveTags.LocateInside | cam-follower/internal/cycle/cycle.go:126-142 | strictly inside a segment that segment answers |
| CurveTags.LongSegmentIsTagged | cam-follower/internal/cycle/cycle.go:181-198 | a segment within the turn and longer than one grid step is tagged by some sample |
| Cycle.Segments.Discontinuities | cam-follower/internal/cycle/cycle.go:227-287 | the appending loops return the specified joint list, or the first failure |
| Cycle.HasDisplacementJump | cam-follower/internal/cycle/cycle.go:290-297 | true exactly when some joint is marked as a jump |
| JointReport.ReportComplete | cam-follower/internal/cycle/cycle.go:227-287 | every valid turn is reported without error: each boundary in order, then each switch in order, then the cyclic joint, and nothing else |
| JointReport.StitchedSwitching | cam-follower/internal/cycle/cycle.go:247-251 | the switching segments are the parabolic strokes, rise before return |
| JointReport.BoundaryContinuous | cam-follower/internal/cycle/cycle.go:230-245 | at every boundary both sides report exactly the same displacement and velocity, and the verdicts say so |
| JointReport.SwitchSides | cam-follower/internal/kinematics/kinematics.go:116-128 | at a parabolic midpoint both sides give h/2 and equal velocities, and exactly opposite accelerations of peak size |
| JointReport.SwitchContinuous | cam-follower/internal/cycle/cycle.go:247-268 | the switch joint of a rise or a return is continuous in displacement, velocity and jerk with exactly opposite peak accelerations, and in acceleration exactly when twice the peak is under the tolerance |
| JointReport.CyclicSides | cam-follower/internal/cycle/cycle.go:270-284 | the cyclic joint compares the start at rest with an inner dwell at rest, or with the leftover height h y((sum - 360)/beta) and the leftover velocity of the return; velocity is continuous exactly when that leftover is under the floor |
| JointReport.CyclicGapSize | cam-follower/internal/cycle/cycle.go:270-284 | the gap lies in [0,h], vanishes exactly when the angles do not exceed a turn, and is h once the return starts after it; the leftover velocity is never positive and vanishes in both those cases |
| JointReport.ParabolicGap | cam-follower/internal/cycle/cycle.go:270-284 | for a parabolic return the gap is at most 2 h delta^2 |
| JointReport.InnerJointsContinuous | cam-follower/internal/cycle/cycle.go:230-268 | every joint but the cyclic one is continuous in displacement and velocity |
| JointReport.JumpReportedExactly | cam-follower/internal/cycle/cycle.go:227-297 | a jump is reported if and only if no inner dwell is kept and the leftover of the return exceeds the tolerance |
| JointReport.ReportJudgesClosing | cam-follower/internal/cycle/cycle.go:227-297 | a jump is reported if and only if the displacements Point reports at 360 and at 0 disagree |
| JointReport.ReportTellsTruth | cam-follower/internal/cycle/cycle.go:227-297 | the report is right about a fall from the height at which the motion arrives at 360 if and only if the turn is regular or that fall is within the tolerance; an irregular turn never has a reported jump |
| JointReport.WithinTurnAllContinuous | cam-follower/internal/cycle/cycle.go:227-287 | with an inner dwell, or angles within one turn, every joint is continuous in displacement and velocity |
| JointReport.LateReturnJumps | cam-follower/internal/cycle/cycle.go:227-297 | when the return stroke starts after the full turn, a jump of the whole lift is reported |
| JointReport.LateReturn | cam-follower/internal/cycle/cycle.go:71-74 | the slack on the angle sum accepts a configuration for which that happens |
| JointReport.LateReturnReport | cam-follower/internal/cycle/cycle.go:227-297 | the report of that configuration shows a jump, and the turn ends at the whole lift |
| JointReport.DropUnreported | cam-follower/internal/cycle/cycle.go:126-297 | when an inner dwell is kept and the return starts at 360 or later, the follower stays at h up to 360, is reported at 0 there, and every joint is found continuous |
| JointReport.LateStart | cam-follower/internal/cycle/cycle.go:71-74 | the slack on the angle sum accepts such a turn |
| JointReport.LateStartReport | cam-follower/internal/cycle/cycle.go:126-297 | at that turn the drop of the whole lift is not reported |
| JointClass.SegmentEnds | cam-follower/internal/cycle/cycle.go:208-223 | acceleration and jerk of every segment at its own ends, from the closed forms, with the return mirrored |
| JointClass.BoundaryClass | cam-follower/internal/cycle/cycle.go:230-245 | a boundary is continuous in acceleration if and only if the end accelerations of its segments agree, and in jerk if and only if the left jerk agrees with the opposite of the right one |
| JointClass.CyclicClass | cam-follower/internal/cycle/cycle.go:270-284 | for every turn the cyclic joint is continuous in acceleration and jerk if and only if what the last segment leaves at 360, closed form of the overrun included, agrees with the start of the rise; when the turn closes that is the end of the last segment |
| JointClass.AgainstDwell | cam-follower/internal/kinematics/kinematics.go:198-224 | against a dwell a cycloid is continuous in acceleration and the others only under the floor; the jerk is the other way round |
| JointClass.DwellBoundary | cam-follower/internal/cycle/cycle.go:230-245 | the verdicts of every boundary between a stroke and a dwell are those |
| JointClass.DwellClosing | cam-follower/internal/cycle/cycle.go:270-284 | after an inner dwell, so are the verdicts of the cyclic joint |
| JointClass.Abutting | cam-follower/internal/kinematics/kinematics.go:198-224 | any two abutting strokes agree in acceleration, and in jerk, if and only if an inequality in lift, speed, laws, both angles and the two tolerances holds |
| JointClass.AbuttingTwins | cam-follower/internal/kinematics/kinematics.go:198-224 | strokes of one law and angle agree in acceleration; two such cycloids agree in jerk only under the tolerance |
| JointClass.StrokesAbutAtTop | cam-follower/internal/cycle/cycle.go:230-245 | without an outer dwell the verdicts of the joint between rise and return are those inequalities |
| JointClass.StrokesAbutAtBottom | cam-follower/internal/cycle/cycle.go:270-284 | without an inner dwell, when the turn closes, so are the verdicts of the cyclic joint |
| JointClass.TwinsAbutAtTop | cam-follower/internal/cycle/cycle.go:230-245 | strokes of one law and angle without an outer dwell give a joint continuous in acceleration, and in jerk unless they are cycloids over the tolerance |
| Records.CycleRecordAccepted | cam-follower/internal/store/store.go:60-89 | a cycle record is accepted if and only if its name is not blank and it gives a valid turn at every positive speed |
| Records.AcceptedCycleIsUsable | cam-follower/internal/store/store.go:60-89 | an accepted record stitches, answers at every angle and reports its joints without error at every positive speed |
| Records.FileNameInjective | cam-follower/internal/store/store.go:123-198 | distinct kinds and names never share a file |
| Records.TempNeverVisible | cam-follower/internal/store/jsonfile.go:27-42 | a temporary file is never a record's file nor listed, and distinct files have distinct temporaries |
| Records.GlobExact | cam-follower/internal/store/store.go:151-217 | the listing pattern of a kind matches exactly the files of that kind |
| StoreRuns.StepRefines | cam-follower/internal/store/jsonfile.go:27-42 | every step of a save, failed or not, and every crash keeps the directory a refinement of the map from slots to the record last renamed there |
| StoreRuns.RunRefines | cam-follower/internal/store/jsonfile.go:27-42 | so does every run |
| StoreRuns.VisibleIsLastRenamed | cam-follower/internal/store/store.go:123-198 | after any run, reading a slot gives exactly the checked record last renamed there, or nothing |
| StoreRuns.FailuresAreInvisible | cam-follower/internal/store/jsonfile.go:27-42 | only a completed rename changes what is visible |
| Store.Store.constructor | cam-follower/internal/store/store.go:102-107 | a directory left by any run, a crashed one included, opens in a valid state |
| Store.Store.AtomicWrite | cam-follower/internal/store/jsonfile.go:27-42 | the write, rename and clean-up take exactly the steps of one save for the operating system's answers |
| Store.Store.Save | cam-follower/internal/store/store.go:123-133 | a save changes what is visible only when it reports success, and then only its own slot; a rejected record changes nothing |
| Store.Store.Get | cam-follower/internal/store/store.go:135-149 | a bad name, a missing file, an unreadable file and a record are told apart |
| Store.Store.Glob | cam-follower/internal/store/store.go:155-159 | the matching files, each once, strictly ascending by path |
| Store.Store.List | cam-follower/internal/store/store.go:152-169 | the readable records of the matching files in path order |
| Store.ListingIsExact | cam-follower/internal/store/store.go:151-217 | after any run a listing gives, in path order and once each, exactly the records that reading gives |
| Store.SaveIsVisible | cam-follower/internal/store/store.go:123-133 | one save renames its record into its own slot, or nothing |

## Left out

- Floating-point rounding, NaN and infinities: quantities are exact reals, so the midpoint of a stroke is at exactly one half and the end of a segment at exactly one, which rounding does not guarantee.
- The numeric implementation of sine, cosine and pi, which is a parameter with stated facts.
- HTTP routes, request decoding, query parsing and status codes, and start-up, seeding and shutdown: plumbing around the modelled functions.
- JSON text: encoding and decoding are a parameter assumed to round-trip on checked records; what decoding makes of other text is arbitrary.
- Error message wording: an outcome names its reason by a constructor.
- Durability of the directory: a rename is one atomic step and its effect survives a crash; files the store did not write, and directory paths that contain pattern characters, are not considered.
- Concurrent callers: the lock makes saves, reads and listings one after another, which the step machine takes for granted.
