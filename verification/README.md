# Verified models of a robot navigation stack

This project models seven pieces of a ROS 2 navigation stack in Dafny and proves what they are for. Each
imperative source file has a class or methods that change their state in place; these are proved against
definitions on values, and the theorems are about those definitions.

`dafny verify dfyconfig.toml` checks everything.

| piece | files | main theorems |
|---|---|---|
| Lagged-data replay of `RosFilter` | FilterBase, Replay, ReplayProof, InOrder, UpdateEffect, RosFilter, EkfReplay | late data gives the same answer as data in order, in every run; exactly when an idle filter is predicted, and when a prediction ahead makes a difference; with the extended filter inside, the covariance stays one in every run |
| Covariance algebra of the Kalman filters | LinearAlgebra, Covariance, Kalman, MeasurementSide, Ekf, EkfProof, UnscentedTransform, Ukf, UkfProof, UkfEstimate | the covariance of both filters stays symmetric positive semidefinite in every run; Joseph form = textbook form; the gain is optimal; sigma points match moments exactly; where a prediction and a correction move each entry of the state, in both filters; exactly what the unscented correction leaves of the covariance |
| Inflation wavefront | IntegerDistances, Inflation, InflationCost, InflationLayer | the costs an update leaves, in numbers; levels are order-isomorphic to distance; the charge is exact wherever the nearest obstacle reaches a cell through cells of its own; no bin grows while it is drained |
| Costmap grids | Grid, Raytrace, ConvexFill, Costmap2D | a rolling window keeps the world; the polygon fill is column-exact and misses no cell of the polygon |
| Collision monitor | RayCrossing, Arbitration, CollisionMonitor, Trajectory | ray crossing is the parity of fan triangles, and exact for convex polygons; the simulated trajectory; arbitration takes the least ratio in any order, and the first polygon that asks for it |
| Estimator buffer | EstimatorBuffer | a bounded buffer is the newest part of an unbounded one |
| Waypoint runner | WaypointRunner | what the server drove to is, pose by pose, the beginning of the route, in every run |

## How the source is read

- `double` is `real`; `rclcpp::Time` and `Duration` are integer nanoseconds; unsigned indices are `int` or `nat`
  and shown to stay in range. A `std::vector` or `std::deque` is a `seq` that methods reassign, a buffer of
  fixed size an `array`, a priority queue a multiset from which any of the oldest may come first.
- Library calls are parameters with the contract the proof needs: `inverse()` (S⁻¹S = I only where a theorem says
  so; the covariance theorem of the extended filter asks only for the shape), `llt()` (LLᵀ = A), `normalize_angle`,
  `clampRotation`, cosine and sine (the Pythagorean and addition identities only where a theorem says so). `std::sort` is
  an insertion sort of which only "sorted and a permutation" is used. `boost::circular_buffer` follows its documented
  `push_back` and `insert`.
- The replay engine runs over an arbitrary inner filter: a deterministic step on estimate (state and covariance),
  cache, clock and initialised flag. The cache is what a checkpoint does not save, such as the sigma points;
  `predict` overwrites it unread, which is why a replay that starts with a strictly newer measurement forgets it.
  EkfReplay.dfy puts the extended Kalman filter of Ekf.dfy in its place.
- The transfer matrix and Jacobian of the motion models are arbitrary.

## What turned out different from the first impression

- **A failed revert may repeat measurements.** With nothing saved `revertTo` does nothing. With saved states of which
  none is old enough it still goes back to its oldest state, and the queue then holds measurements that state already
  contains. So measurements are conserved if and only if nothing is saved or some state is old enough
  (`InOrder.RevertConservesIff`); `InOrder.HistoryMayBeTooShort` is a run that ends on the failing side.
- **A prediction ahead may survive.** It goes into the filter's state and clock. Late data undoes it, because the update
  then reverts to a saved state; data that is not late is processed on top. So every run is the fold of everything
  received, in time order, with the predictions that each measurement overtook (`InOrder.ReplayIsInTimeOrder`). They make
  no difference, whatever the filter, if and only if each measurement overtook none, or one that went exactly to its own
  stamp from an older clock (`InOrder.OvertakingIsExactIff`); `InOrder.PredictionMaySurvive` is a run that ends elsewhere.
  For a filter whose predictions compose, overtaking by strictly newer data is always exact (`InOrder.ComposingIsExact`).
- **The first measurement may leave a matrix that is no covariance.** It overwrites the measured block and keeps the
  rest; this is safe for every measurement covariance if and only if the covariance before it couples no measured
  with an unmeasured variable (`MeasurementSide.FirstMeasurementIsSafeIff`; `MeasurementSide.FirstMeasurementMayBeUnsafe`
  is an input). After `reset` that always holds, so every run from a reset is safe (`Ekfs.ResetRunKeepsCovariance`).
- **The unscented correction keeps more variance than it has to.** It subtracts K P_zz Kᵀ, where P_zz leaves out the
  measurement's own noise R. The result is still a covariance; with new sigma points it exceeds the best possible update by
  exactly K R Kᵀ, so it is the best if and only if that is zero (`UkfProofs.UpdateIsBestIff`; `UkfProofs.UpdateMayKeepMore`
  is an input). After a prediction the points do not contain the process noise either, so the correction leaves all of it
  (`UkfProofs.UpdateIsJoseph`).
- **A new unscented filter may ignore its second measurement.** Its sigma points are all zero until it predicts, and it
  predicts only for a later stamp. So the second measurement is ignored, whatever the filter and whatever it measures, if
  and only if its stamp is not later than the first (`UkfProofs.SecondIsIgnoredIff`).
- **The two collision checks differ.** `getCollisionTime` answers 0 when at least `max_points_` points are inside
  already, but a simulated step hits, and a stop or slowdown polygon triggers, only with more than `max_points_`. For
  polygons of one shape and limit an approach polygon halts the robot alone if and only if exactly `max_points_` points
  are inside, or fewer and the first simulated step goes over the limit (`CollisionMonitors.OnlyApproachHaltsIff`);
  `CollisionMonitors.TwinsDisagree` is an input.
- **The estimator drops a state as late as its newest one, but keeps a state as late as an older one.** Everything
  offered is accepted if and only if no offer is as late as the latest before it (`EstimatorBuffers.AcceptsAllIff`);
  `EstimatorBuffers.LateTwinIsDropped` and `EstimatorBuffers.EarlyTwinIsKept` are inputs.
- **A rejected scene request is not without effect.** A route that cannot be read resets the progress of the
  current one. A later continue may then drive to completed waypoints again if and only if the run was paused and something
  had been driven (`WaypointRunners.UnreadableRequestRepeatsIff`; `WaypointRunners.FailedRequestRepeats` is a run). An
  empty route replaces the current one; after it nothing is driven without a new scene, which loses a run if and only if it
  was paused (`WaypointRunners.EmptyRequestStrandsIff`).
- **A result of unknown code is not counted.** The node then knows how far the run is if and only if the server had not
  passed the first waypoint of its goal (`WaypointRunners.UnknownResultLosesIff`). It sends nothing more until a new scene
  (`WaypointRunners.UnknownResultSilences`).

## Model

| member | source | states |
|---|---|---|
| FilterCycle.FoldLast | robot_localization/src/filter_base.cpp:250-259 | in time order the filter's clock is the stamp of the newest measurement |
| FilterCycle.FoldForgetsCache | robot_localization/src/filter_base.cpp:218-226 | if the next measurement is strictly newer, what a checkpoint does not save has no influence on anything after it |
| FilterCycle.StepCases | robot_localization/src/filter_base.cpp:206-250 | a later measurement starts with one prediction over the time since the clock; any other corrects what is there and leaves the clock |
| FilterCycle.ClockIsNewest | robot_localization/src/filter_base.cpp:250-259 | whatever the order of the stamps, the clock ends at the newest of them, or where it was |
| FilterCycle.SortedArrangementIsUnique | robot_localization/include/robot_localization/measurement.hpp:93-104 | with distinct stamps there is one time-sorted arrangement |
| RosFilters.FilterBase.ProcessMeasurement | robot_localization/src/filter_base.cpp:194-264 | the object's new state is one step of the cycle, with its prediction only forward in time |
| RosFilters.RosFilter.EnqueueMeasurement | robot_localization/src/ros_filter.cpp:319-336 | the queue gains exactly the measurement |
| RosFilters.RosFilter.SaveFilterState | robot_localization/src/ros_filter.cpp:3313-3329 | the newest saved state is the current one, nothing else changes |
| RosFilters.RosFilter.RevertTo | robot_localization/src/ros_filter.cpp:3332-3414 | goes back to the newest state at or before the time, else to the oldest; later measurements leave the history and return to the queue if that state does not predate them; true iff a state was old enough |
| RosFilters.RosFilter.IntegrateMeasurements | robot_localization/src/ros_filter.cpp:599-735 | reverts if the oldest queued measurement is late, then takes measurements off the queue oldest first until only the future is left, then predicts ahead if asked or timed out |
| RosFilters.RosFilter.ClearExpiredHistory | robot_localization/src/ros_filter.cpp:3448-3477 | drops exactly the leading measurements and states older than the cutoff |
| RosFilters.RosFilter.ClearMeasurementQueue | robot_localization/src/ros_filter.cpp:3480-3487 | empties the queue and changes nothing else |
| RosFilters.RosFilter.PeriodicUpdate | robot_localization/src/ros_filter.cpp:2028-2202 | one whole update, or an idle one that moves only the clock and forgets the queue; history expires only with smoothing |
| RosFilters.RosFilter.SetPose | robot_localization/src/ros_filter.cpp:2215-2264 | the pose starts a new log: queue and both histories empty, clock set, initialised flag kept |
| ReplayProof.DrainStepKeeps | robot_localization/src/ros_filter.cpp:653-698 | one pass of the drain loop keeps the log consistent: filter = fold of the log, histories and checkpoints aligned with it, nothing lost from queue plus log |
| ReplayProof.DrainKeeps | robot_localization/src/ros_filter.cpp:653-698 | the whole drain keeps it and ends settled: the newest saved state is the current filter state |
| ReplayProof.RevertCuts | robot_localization/src/ros_filter.cpp:3346-3404 | a successful revert cuts the log exactly at a checkpoint: everything after it, and nothing else, moves back to the queue |
| ReplayProof.CutBackKeepsLog | robot_localization/src/ros_filter.cpp:3382-3404 | a cut-back node has a consistent log, and queue plus log hold the same multiset of measurements |
| ReplayProof.RevertStart | robot_localization/src/ros_filter.cpp:611-651 | late data with an older saved state, whatever was predicted meanwhile: the drain starts from a consistent node, all that is queued newer than the filter |
| InOrder.ExpireKeeps | robot_localization/src/ros_filter.cpp:3458-3470 | expiry keeps the invariant: without a prediction ahead the current state is never forgotten, every processed measurement later than a retained state is still in the history, and the log itself does not change |
| ReplayProof.OvertakingStart | robot_localization/src/ros_filter.cpp:653-698 | the first measurement that overtakes predictions leaves a consistent node again, with those predictions recorded before it |
| InOrder.IntegrateKeeps | robot_localization/src/ros_filter.cpp:611-698 | the drain, whether its data is late, overtakes predictions, is simply next or is not due, keeps the invariant and leaves only the future queued |
| InOrder.RunTrails | robot_localization/src/ros_filter.cpp:2039-2052 | at every boundary of every run with a forward clock whose late data finds an older saved state, the filter is the end of a consistent log, predicted ahead to the times of the updates since data was last due |
| InOrder.ReplayIsInTimeOrder | robot_localization/src/ros_filter.cpp:611-732 | after any update of any such run the filter is that of everything received and not in the future, once each, in time order, each measurement on top of the predictions it overtook, with the pending predictions on top of all |
| InOrder.OvertakingIsExactIff | robot_localization/src/ros_filter.cpp:611-732 | overtaken predictions make no difference for any filter iff each measurement overtook none, or one to its own stamp from an older clock |
| InOrder.PredictionMaySurvive | robot_localization/src/ros_filter.cpp:653-732 | a run without late data that does not end as processing its measurements in order does |
| InOrder.ComposingIsExact | robot_localization/src/ros_filter.cpp:721-732 | if predictions compose, a strictly newer measurement gives the same with any predictions before it as without |
| InOrder.ReplayEqualsInOrder | robot_localization/src/ros_filter.cpp:611-732 | after any update of any run with smoothing, a forward clock, a saved state older than every late measurement and only harmless overtaking: filter state, covariance and clock equal the fold over everything received and not in the future, once each, in time order, with the pending predictions on top |
| InOrder.ArrivalOrderIsIrrelevant | robot_localization/src/ros_filter.cpp:611-732 | two such runs with the same measurements of distinct stamps and the same pending predictions end in the same filter state whatever the arrival order, and whatever was predicted and undone on the way |
| InOrder.RevertConservesIff | robot_localization/src/ros_filter.cpp:3346-3404 | at every settled node, restored state plus queue hold exactly what was received if and only if nothing is saved or some saved state is old enough |
| InOrder.ShortHistory | robot_localization/src/ros_filter.cpp:3360-3377 | otherwise the queue repeats measurements the restored state contains |
| InOrder.HistoryMayBeTooShort | robot_localization/src/ros_filter.cpp:3360-3377 | a run that gets there: two measurements and one update |
| UpdateEffects.IdleUpdate | robot_localization/src/ros_filter.cpp:700-732 | with nothing queued an initialised filter is unchanged before the sensor timeout unless it follows the clock; from the timeout on it is predicted to now over the whole gap |
| UpdateEffects.IdleKeepsUp | robot_localization/src/ros_filter.cpp:700-732 | after such an update it is less than a positive timeout behind |
| UpdateEffects.RunKeepsUp | robot_localization/src/ros_filter.cpp:700-732 | so in every run |
| UpdateEffects.BusyUpdate | robot_localization/src/ros_filter.cpp:607-732 | with something queued and nothing older than the filter, the filter is that of the due measurements, oldest first, and nothing is predicted after them unless it follows the clock |
| UpdateEffects.LateUpdateReverts | robot_localization/src/ros_filter.cpp:611-651 | something older than the filter makes it go back to a saved state, before the oldest queued measurement if one is |
| UpdateEffects.PlainUpdateRecordsNothing | robot_localization/src/ros_filter.cpp:660-695 | without smoothing both histories stay as they are |
| UpdateEffects.SmoothDrainRecords | robot_localization/src/ros_filter.cpp:660-695 | with smoothing every processed measurement is recorded, and the state once for each stamp |
| UpdateEffects.UpdateForgets | robot_localization/src/ros_filter.cpp:2195-2202 | afterwards both histories start within the history length of the clock |
| EkfReplays.StepIsProcessed | robot_localization/src/filter_base.cpp:194-264 | one step of the cycle over the extended filter is one processed measurement of it |
| EkfReplays.UpdateHolds | robot_localization/src/ros_filter.cpp:599-735 | one update keeps covariances in the filter and in every saved state, with smoothing or without, late data or not, even when no saved state is old enough |
| EkfReplays.EveryRunKeepsCovariance | robot_localization/src/ros_filter.cpp:599-735 | after any events of any run from a reset whose clock does not go back, the covariance of the filter and of every state it may revert to is symmetric positive semidefinite |
| EkfReplays.LateDataIsInOrder | robot_localization/src/ros_filter.cpp:599-735 | if overtaking is harmless, the state is that of the extended filter run over the measurements in time order, whatever was late, with the pending predictions on top |
| Covariances.CongruenceIsCovariance | robot_localization/src/ros_filter.cpp:2902-2929 | A C Aᵀ of a covariance is a covariance, for every A: rotations, selections, Jacobians |
| MeasurementSide.NoiseIsCovariance | robot_localization/src/ekf.cpp:111-148 | the principal sub-matrix with absolute and floored diagonal of a covariance is a covariance |
| MeasurementSide.NoiseIs | robot_localization/src/ekf.cpp:111-148 | its covariances are those of the updated variables; a variance of at least 1e-9 is left alone and none is smaller |
| MeasurementSide.FlooredIs | robot_localization/src/ekf.cpp:126-147 | a negative variance loses its sign, and only what is nearer to zero than 1e-9 becomes 1e-9 |
| MeasurementSide.ForceTwoD | robot_localization/src/ros_filter.cpp:354-377 | zeroing columns, then rows, then setting the diagonal gives the flattened covariance |
| MeasurementSide.TwoDKeepsThePlane | robot_localization/src/ros_filter.cpp:354-377 | x, y, yaw, their velocities and the planar accelerations keep their covariances; all others have variance 1e-6 and no covariance |
| MeasurementSide.FlattenedIsCovariance | robot_localization/src/ros_filter.cpp:354-377 | the flattened covariance is a covariance |
| MeasurementSide.InitializedIsCovariance | robot_localization/src/filter_base.cpp:237-245 | the block overwrite of the first measurement keeps a covariance when measured and unmeasured variables are uncoupled |
| MeasurementSide.FirstMeasurementIsSafeIff | robot_localization/src/filter_base.cpp:237-245 | and only then: it is safe for all measurement covariances iff uncoupled |
| MeasurementSide.FirstMeasurementMayBeUnsafe | robot_localization/src/filter_base.cpp:237-245 | two coupled variables of which one is measured exactly: what is left is no covariance |
| KalmanUpdates.JosephIsCovariance | robot_localization/src/ekf.cpp:194-202 | the Joseph update of covariances is a covariance for any gain |
| KalmanUpdates.JosephIsTextbook | robot_localization/src/ekf.cpp:165-202 | if K S = P Hᵀ: (I−KH)P(I−KH)ᵀ + KRKᵀ = (I−KH)P = P − KSKᵀ |
| KalmanUpdates.GainSolves | robot_localization/src/ekf.cpp:165-171 | a true inverse gives K S = P Hᵀ |
| KalmanUpdates.GainIsOptimal | robot_localization/src/ekf.cpp:165-202 | any other gain leaves more variance in every direction, by exactly the S-length of the difference |
| KalmanUpdates.CorrectionNeverInflates | robot_localization/src/ekf.cpp:194-202 | with a true inverse xᵀPx does not increase for any x |
| KalmanUpdates.ResidualAfterCorrection | robot_localization/src/ekf.cpp:190-192 | z − Hx' = R S⁻¹ (z − Hx) |
| Ekfs.CorrectKeepsCovariance | robot_localization/src/ekf.cpp:111-205 | a correction, accepted or gated out, keeps a covariance whatever the inverse returned |
| Ekfs.PredictKeepsCovariance | robot_localization/src/ekf.cpp:426-431 | J P Jᵀ + dt Q keeps a covariance for dt ≥ 0 |
| Ekfs.ProcessKeepsCovariance | robot_localization/src/filter_base.cpp:194-264 | so does one processed measurement |
| Ekfs.RunKeepsCovariance | robot_localization/src/filter_base.cpp:194-264 | and every run from an initialised filter or an uncoupled start |
| Ekfs.ResetRunKeepsCovariance | robot_localization/src/filter_base.cpp:71-125 | every run from reset keeps a symmetric positive semidefinite covariance, for any dimension, motion model, stamps and inverse |
| Ekfs.CorrectNeverInflates | robot_localization/src/ekf.cpp:165-202 | no correction makes any direction less certain if the inverse is right at S |
| Ekfs.CorrectPullsTowardsMeasurement | robot_localization/src/ekf.cpp:165-192 | an accepted measurement without angles leaves R S⁻¹ of its innovation |
| EkfProofs.PredictsMoments | robot_localization/src/ekf.cpp:405-434 | the projected state, its angles kept in range, and in every direction y the variance P(Jᵀy) + dt Q(y) |
| EkfProofs.NewerPredictsFirst | robot_localization/src/filter_base.cpp:206-226 | a newer measurement corrects those moments at its own stamp, a billionth of a second for each nanosecond |
| EkfProofs.OlderOnlyCorrects | robot_localization/src/filter_base.cpp:216-227 | any other measurement corrects the filter as it is |
| EkfProofs.FirstSetsMeasured | robot_localization/src/filter_base.cpp:228-248 | the first measurement sets exactly the measured entries and the covariances among them |
| EkfProofs.FreshIs | robot_localization/src/filter_base.cpp:71-95 | a reset filter is at zero with variance 1e-9 |
| EkfProofs.IndicesAre | robot_localization/src/ekf.cpp:74-93 | the updated variables are exactly those whose flag is set, ascending |
| EkfProofs.InnovationEntry | robot_localization/src/ekf.cpp:173-183 | differences of roll, pitch and yaw are normalised, others are not |
| EkfProofs.AcceptsIff | robot_localization/src/filter_base.cpp:431-452 | accepted iff the squared Mahalanobis distance is below the squared threshold |
| EkfProofs.LargerAccepts | robot_localization/src/filter_base.cpp:431-452 | a larger threshold accepts what a smaller one does; zero accepts nothing |
| EkfProofs.SomeThresholdAccepts | robot_localization/src/filter_base.cpp:431-452 | every innovation has a threshold that accepts it |
| EkfProofs.RejectedChangesNothing | robot_localization/src/ekf.cpp:185-205 | a rejected measurement changes nothing |
| EkfProofs.AcceptedMoves | robot_localization/src/ekf.cpp:165-205 | an accepted one moves every entry, measured or not, by P Hᵀ S⁻¹ times the innovation |
| EkfProofs.AcceptedLeaves | robot_localization/src/ekf.cpp:165-202 | and leaves (I − K H) P if the inverse is right at S |
| EkfProofs.FullTurnIsInvisible | robot_localization/src/ekf.cpp:173-183 | an angle measured a full turn off gives the same correction |
| Ekfs.UpdateIndices | robot_localization/src/ekf.cpp:74-93 | the indices of the updated variables, in order |
| Ekfs.BuildNoise | robot_localization/src/ekf.cpp:111-148 | the loops fill R with the floored sub-covariance |
| Ekfs.BuildSelection | robot_localization/src/ekf.cpp:150-155 | the loop fills H with the selected unit rows |
| Ekfs.BuildInnovation | robot_localization/src/ekf.cpp:173-183 | the innovation, its roll, pitch and yaw entries normalised |
| Ekfs.BuildInitialized | robot_localization/src/filter_base.cpp:237-245 | the nested loop overwrites exactly the measured block |
| Ekfs.Ekf.Correct | robot_localization/src/ekf.cpp:49-215 | state and covariance are overwritten by gain and Joseph form iff the Mahalanobis gate accepts |
| Ekfs.Ekf.ProcessMeasurement | robot_localization/src/filter_base.cpp:194-264 | the object's new state is one predict/correct cycle, or the initialisation |
| UnscentedTransforms.WeightsSumToOne | robot_localization/src/ukf.cpp:54-68 | the state weights sum to 1 and the side weights invert 2(N+λ) |
| UnscentedTransforms.ScalingIs | robot_localization/src/ukf.cpp:54-68 | n + λ = α²(n + κ), and the centre of the covariance weighs 1 − α² + β more |
| UnscentedTransforms.MeanIsExact | robot_localization/src/ukf.cpp:212-218 | the weighted mean of sigma points sent through any matrix is that of the map, for any square root |
| UnscentedTransforms.CrossIsExact | robot_localization/src/ukf.cpp:220-230 | the weighted cross-products of two images F and G of one family are F P Gᵀ if LLᵀ is the scaled covariance, whatever the centre weighs and whatever point the first image is compared with |
| UnscentedTransforms.SpreadIsExact | robot_localization/src/ukf.cpp:379-387 | the recombined spread is F P Fᵀ |
| Ukfs.MakeWeights | robot_localization/src/ukf.cpp:57-67 | the loop fills both weight arrays, the centre apart |
| Ukfs.MakePoints | robot_localization/src/ukf.cpp:357-371 | one centre point and two mirrored families, each through the transfer matrix |
| Ukfs.RenewPoints | robot_localization/src/ukf.cpp:84-106 | the same around the state itself |
| Ukfs.Recombine | robot_localization/src/ukf.cpp:373-387 | the two accumulating loops compute the weighted sums |
| Ukfs.Observe | robot_localization/src/ukf.cpp:212-218 | the measurement matrix applied to every point, and the weighted mean of that |
| Ukfs.Correlate | robot_localization/src/ukf.cpp:220-230 | one loop computes both P_zz and P_xz |
| Ukfs.BuildInnovation | robot_localization/src/ukf.cpp:238-249 | the innovation against the predicted measurement, its angles normalised |
| Ukfs.Ukf.Predict | robot_localization/src/ukf.cpp:352-405 | the new state, covariance, points and flag, everything else unchanged |
| Ukfs.Ukf.CurrentPoints | robot_localization/src/ukf.cpp:84-106 | the predicted points while they are unused, else new ones |
| Ukfs.Ukf.Apply | robot_localization/src/ukf.cpp:232-267 | gain, gate, state, covariance and flag in the source's order |
| Ukfs.Ukf.Correct | robot_localization/src/ukf.cpp:70-279 | the whole correction |
| UkfProofs.PredictsMoments | robot_localization/src/ukf.cpp:352-391 | predict leaves F x, wrapped, and F P Fᵀ + dt Q, for every dimension and all scaling constants, and points that stand for F x and F P Fᵀ |
| UkfProofs.ExpectsMoments | robot_localization/src/ukf.cpp:212-230 | from points that stand for μ and P₀, correct computes H μ, H P₀ Hᵀ and P₀ Hᵀ, whatever wrapping did to the state since |
| UkfProofs.UpdateIsJoseph | robot_localization/src/ukf.cpp:232-261 | P − K P_zz Kᵀ is the Joseph update of P₀, plus K R Kᵀ, plus P − P₀ |
| UkfProofs.UpdateIsBestIff | robot_localization/src/ukf.cpp:259-261 | with new points it exceeds the best update by exactly K R Kᵀ, and is the best iff that is zero |
| UkfProofs.UpdateMayKeepMore | robot_localization/src/ukf.cpp:259-261 | one variable for which it is not |
| UkfProofs.UpdateNeverInflates | robot_localization/src/ukf.cpp:259-261 | no direction becomes less certain |
| UkfProofs.PredictKeepsCovariance | robot_localization/src/ukf.cpp:352-405 | predict keeps a covariance, and its points stand for one that it exceeds by a covariance |
| UkfProofs.CorrectKeepsCovariance | robot_localization/src/ukf.cpp:70-279 | so does a correction, accepted or gated out, from predicted points or new ones |
| UkfProofs.FreshRunKeepsCovariance | robot_localization/src/filter_base.cpp:194-264 | every run of a new filter keeps a symmetric positive semidefinite covariance, for any dimension, transfer matrix and stamps |
| UkfProofs.CorrectBeforePredict | robot_localization/src/ukf.cpp:40-68 | until the first prediction the points are all zero, and a correction changes nothing but the wrapping of angles |
| UkfProofs.SecondIsIgnoredIff | robot_localization/src/filter_base.cpp:208-227 | so a second measurement is ignored, whatever the filter and whatever is measured, iff its stamp is not later than the first |
| UkfProofs.LaterIsNotIgnored | robot_localization/src/filter_base.cpp:208-227 | a filter and two measurements, the second later, of which the second counts |
| UkfEstimates.CorrectMoves | robot_localization/src/ukf.cpp:232-267 | from points that stand for μ and P₀ an accepted measurement moves every entry by P₀ Hᵀ S⁻¹ times the innovation against H μ, and takes K H P₀ Hᵀ Kᵀ off the covariance; a rejected one changes nothing |
| UkfEstimates.CorrectMovesPlain | robot_localization/src/ukf.cpp:232-267 | without measured angles by P₀ Hᵀ S⁻¹ (z − H μ), entry by entry and as H sees it |
| UkfEstimates.CorrectPullsTowardsMeasurement | robot_localization/src/ukf.cpp:232-267 | with new points z − H x' = R S⁻¹ (z − H x) |
| UkfEstimates.FullTurnIsInvisible | robot_localization/src/ukf.cpp:238-249 | an angle measured a full turn off gives the same correction |
| IntegerDistances.CollectDisc | navigation2/nav2_costmap_2d/plugins/inflation_layer.cpp:391-404 | every offset of the disc once, nothing else |
| IntegerDistances.GenerateIntegerDistances | navigation2/nav2_costmap_2d/plugins/inflation_layer.cpp:391-428 | on the disc of radius R+2: level(p) < level(q) iff \|p\|² < \|q\|², levels are contiguous from 0, the maximum is returned, 0 outside |
| IntegerDistances.LevelsMakeTable | navigation2/nav2_costmap_2d/plugins/inflation_layer.cpp:412-427 | counting changes of distance along the sorted disc gives such a table |
| InflationLayers.FillCaches | navigation2/nav2_costmap_2d/plugins/inflation_layer.cpp:366-380 | entry (i, j) of the caches is the distance of (i, j) and its cost |
| InflationLayers.InflationLayer.DistanceLookup | navigation2/nav2_costmap_2d/include/nav2_costmap_2d/inflation_layer.hpp:189-196 | for offsets up to R+1 the lookup is in range and exact |
| InflationLayers.InflationLayer.CostLookup | navigation2/nav2_costmap_2d/include/nav2_costmap_2d/inflation_layer.hpp:206-213 | likewise for the cost |
| Inflation.StepIsOdd | navigation2/nav2_costmap_2d/plugins/inflation_layer.cpp:295-307 | one axis step always changes the squared distance to any cell |
| Inflation.EnqueueAroundOk | navigation2/nav2_costmap_2d/plugins/inflation_layer.cpp:295-348 | enqueueing the four neighbours keeps every bin well formed, leaves the bin being drained untouched, and queues every unseen neighbour within R |
| Inflation.VisitKeeps | navigation2/nav2_costmap_2d/plugins/inflation_layer.cpp:256-309 | a visit paints a cell not painted before and keeps the wave consistent |
| Inflation.DrainKeeps | navigation2/nav2_costmap_2d/plugins/inflation_layer.cpp:256-309 | draining bin k charges every cell of level k with a clear path to its obstacle |
| Inflation.WaveIsInflated | navigation2/nav2_costmap_2d/plugins/inflation_layer.cpp:241-309 | the finished wave: obstacles charged to themselves, cells to obstacles within R, cells with a clear path to their nearest obstacle |
| Inflation.AloneIsReached | navigation2/nav2_costmap_2d/plugins/inflation_layer.cpp:295-307 | in a disc no other obstacle reaches into, every cell of the grid has a clear path from the centre |
| Inflation.SingleObstacleIsDisc | navigation2/nav2_costmap_2d/plugins/inflation_layer.cpp:241-309 | with one source a cell is visited iff it is in the grid and within R, and is charged its exact distance |
| Inflation.WriteBackIsBounded | navigation2/nav2_costmap_2d/plugins/inflation_layer.cpp:275-293 | outside the window nothing changes; lethal stays lethal; known costs never decrease; no cost exceeds the larger of the old one and that of the nearest obstacle in the padded window |
| Inflation.ReachedIsExact | navigation2/nav2_costmap_2d/plugins/inflation_layer.cpp:275-293 | for any obstacles: a cell that its strictly nearest obstacle reaches along neighbours, ever farther, through cells it is strictly nearest to, gets the blend with the cost of its exact distance |
| InflationCosts.SourcesAre | navigation2/nav2_costmap_2d/plugins/inflation_layer.cpp:221-252 | the wave starts from exactly the lethal cells, and the unknown ones if asked, of the window padded by the radius |
| InflationCosts.NearObstacleIsSource | navigation2/nav2_costmap_2d/plugins/inflation_layer.cpp:221-252 | so from every lethal cell within the radius of a cell of the window |
| InflationCosts.PaintedIsRaised | navigation2/nav2_costmap_2d/plugins/inflation_layer.cpp:274-293 | the master array at a visited cell, in numbers: inside the window the larger of the old cost and the cost at the distance of its obstacle; an unknown cell gets that cost iff it is positive, or at least 253; outside nothing changes |
| InflationCosts.UnpaintedIsKept | navigation2/nav2_costmap_2d/plugins/inflation_layer.cpp:274-293 | at any other cell it is unchanged |
| InflationCosts.ReachedIsRaised | navigation2/nav2_costmap_2d/plugins/inflation_layer.cpp:274-309 | a cell reached by its nearest obstacle has the cost of the true distance |
| InflationCosts.AloneIsRaised | navigation2/nav2_costmap_2d/plugins/inflation_layer.cpp:204-318 | a lethal cell with no other within twice the radius raises every cell of the window within the radius to its cost |
| InflationLayers.InflationLayer.constructor | navigation2/nav2_costmap_2d/plugins/inflation_layer.cpp:353-388 | the caches fit the radius and the buckets are empty |
| InflationLayers.InflationLayer.EnqueueNeighbours | navigation2/nav2_costmap_2d/plugins/inflation_layer.cpp:295-307 | the four guarded calls enqueue exactly the neighbours in the grid, all indices in range |
| InflationLayers.InflationLayer.CollectObstacles | navigation2/nav2_costmap_2d/plugins/inflation_layer.cpp:241-251 | bin 0 holds every obstacle of the padded window, charged to itself |
| InflationLayers.InflationLayer.DrainBin | navigation2/nav2_costmap_2d/plugins/inflation_layer.cpp:256-309 | the bin being drained does not grow, so its loop ends; wave and master array stay in step |
| InflationLayers.InflationLayer.UpdateCosts | navigation2/nav2_costmap_2d/plugins/inflation_layer.cpp:190-317 | the master array is exactly the write-back of a finished wave; nothing happens when disabled or without radius; the buckets end empty |
| Raytrace.Bresenham2D | navigation2/nav2_costmap_2d/include/nav2_costmap_2d/costmap_2d.hpp:490-507 | the error-driven loop visits the indices of the rounded line, up to the maximum length |
| Raytrace.RaytraceLine | navigation2/nav2_costmap_2d/include/nav2_costmap_2d/costmap_2d.hpp:430-482 | the traced cells are the line between the two cells |
| Raytrace.LineIsWalk | navigation2/nav2_costmap_2d/include/nav2_costmap_2d/costmap_2d.hpp:430-507 | a line starts and ends at its endpoints, its cells touch, and it never turns back in x |
| Raytrace.LineIsNearest | navigation2/nav2_costmap_2d/include/nav2_costmap_2d/costmap_2d.hpp:490-507 | every cell is within half a cell of the ideal line |
| Raytrace.LineCovers | navigation2/nav2_costmap_2d/include/nav2_costmap_2d/costmap_2d.hpp:490-507 | a trace covers all columns between its endpoints |
| Raytrace.UnderIsCapped | navigation2/nav2_costmap_2d/include/nav2_costmap_2d/costmap_2d.hpp:490-507 | a cell on or under the ideal segment has a traced cell of its column at or above it |
| ConvexFills.PolygonOutlineCells | navigation2/nav2_costmap_2d/src/costmap_2d.cpp:415-430 | the outline is the edges' lines in order, closed |
| ConvexFills.OutlineIsClosedWalk | navigation2/nav2_costmap_2d/src/costmap_2d.cpp:415-430 | the outline is a closed connected walk inside the map |
| ConvexFills.VisitedTwice | navigation2/nav2_costmap_2d/src/costmap_2d.cpp:473-481 | a closed outline has at least two entries in every column it visits |
| ConvexFills.SortByX | navigation2/nav2_costmap_2d/src/costmap_2d.cpp:444-459 | the sort that steps its index back ends, and gives an x-sorted permutation |
| ConvexFills.SwapLowersWeight | navigation2/nav2_costmap_2d/src/costmap_2d.cpp:448-455 | why it ends: a swap lowers a weight by exactly the difference in x |
| ConvexFills.SortedOutlineHasTwo | navigation2/nav2_costmap_2d/src/costmap_2d.cpp:461-481 | every column from the first to the last keeps its two entries after the sort |
| ConvexFills.ScanColumn | navigation2/nav2_costmap_2d/src/costmap_2d.cpp:473-489 | one column is read to its end and no further, its extremes found, no appended cell consumed |
| ConvexFills.FillColumns | navigation2/nav2_costmap_2d/src/costmap_2d.cpp:461-498 | the scan over the growing vector never breaks off; it appends exactly the cells between the extremes of each column |
| ConvexFills.ConvexFillCells | navigation2/nav2_costmap_2d/src/costmap_2d.cpp:432-499 | a cell is returned iff it lies between two outline cells of its column; fewer than three vertices return nothing |
| ConvexFills.EnclosedIsFilled | navigation2/nav2_costmap_2d/src/costmap_2d.cpp:432-499 | every cell with an edge at or above it and one at or below it is filled, for any polygon |
| ConvexFills.FilledIsBetweenEdges | navigation2/nav2_costmap_2d/src/costmap_2d.cpp:432-499 | every filled cell lies, in its column, between cells within half a cell of an edge |
| Costmaps.CopyMapRegion | navigation2/nav2_costmap_2d/include/nav2_costmap_2d/costmap_2d.hpp:382-399 | exactly the region is overwritten, from the matching cells |
| Costmaps.CopiesShift | navigation2/nav2_costmap_2d/src/costmap_2d.cpp:346-380 | save overlap, reset, copy back: every cell that was in the old window keeps its value, every other has the default |
| Costmaps.RoundTrip | navigation2/nav2_costmap_2d/src/costmap_2d.cpp:281-300 | worldToMap inverts mapToWorld on every cell |
| Costmaps.CellIsAroundCentre | navigation2/nav2_costmap_2d/src/costmap_2d.cpp:281-300 | a point is in a cell iff it is within half a cell of the centre that mapToWorld gives, the upper ends excluded |
| Costmaps.LandsShifted | navigation2/nav2_costmap_2d/src/costmap_2d.cpp:287-300 | moving the origin by whole cells moves the cell of a point by as many |
| Costmaps.LandsNear | navigation2/nav2_costmap_2d/src/costmap_2d.cpp:332-341 | the grid-aligned origin lands less than a cell from the request |
| Costmaps.OriginNeverPasses | navigation2/nav2_costmap_2d/src/costmap_2d.cpp:332-341 | and never passes it: it stops between the old origin and the request |
| Costmaps.ShiftKeepsTheWorld | navigation2/nav2_costmap_2d/src/costmap_2d.cpp:330-384 | every point of the world in the new window reads what it read before, or the default if it was outside |
| Costmaps.Costmap2D.UpdateOrigin | navigation2/nav2_costmap_2d/src/costmap_2d.cpp:330-384 | the array is shifted, the origin moves by whole cells and lands near, the world is kept |
| Costmaps.Costmap2D.SetConvexPolygonCost | navigation2/nav2_costmap_2d/src/costmap_2d.cpp:386-413 | false and unchanged if a vertex is off the map; else exactly the cells of the fill get the cost |
| Costmaps.MapPolygonIs | navigation2/nav2_costmap_2d/src/costmap_2d.cpp:388-400 | the mapped polygon is the polygon vertex by vertex |
| Costmaps.VoxelLayer.UpdateOrigin | navigation2/nav2_costmap_2d/plugins/voxel_layer.cpp:410-475 | both arrays shift by the same cells and keep the same world, each with its own default |
| RayCrossings.IsPointInside | navigation2/nav2_collision_monitor/src/polygon.cpp:387-417 | the loop computes the parity of the crossings of the closed boundary |
| RayCrossings.CrossesBySide | navigation2/nav2_collision_monitor/src/polygon.cpp:401-413 | an edge going up is crossed iff the point is to its left, one going down iff to its right |
| RayCrossings.RotationKeepsInside | navigation2/nav2_collision_monitor/src/polygon.cpp:398-415 | rotating the vertex list does not change the answer |
| RayCrossings.ReversalKeepsInside | navigation2/nav2_collision_monitor/src/polygon.cpp:398-415 | nor does reversing it |
| RayCrossings.OutsideBoxIsOutside | navigation2/nav2_collision_monitor/src/polygon.cpp:398-415 | a point outside the bounding box is outside any polygon |
| RayCrossings.CutAlongChord | navigation2/nav2_collision_monitor/src/polygon.cpp:387-417 | inside the whole iff inside exactly one of the parts that a chord cuts it into |
| RayCrossings.TriangleIsExact | navigation2/nav2_collision_monitor/src/polygon.cpp:387-417 | for any three points: strictly inside the triangle the answer is yes; outside the closed triangle, or without area, no |
| RayCrossings.LeftTriangleIff | navigation2/nav2_collision_monitor/src/polygon.cpp:387-417 | a triangle that turns left contains exactly the points to the left of its three edges, down to which edges own their points |
| RayCrossings.PolygonIsFan | navigation2/nav2_collision_monitor/src/polygon.cpp:387-417 | inside any polygon iff inside an odd number of its fan triangles |
| RayCrossings.ConvexIsExact | navigation2/nav2_collision_monitor/src/polygon.cpp:387-417 | a convex polygon with any number of corners contains exactly the points to the left of all its edges |
| RayCrossings.ConvexOffEdges | navigation2/nav2_collision_monitor/src/polygon.cpp:387-417 | strictly left of all edges the answer is yes, strictly right of some edge no, whichever way round the corners are listed |
| RayCrossings.GetPointsInside | navigation2/nav2_collision_monitor/src/polygon.cpp:164-173 | the number of points inside |
| CollisionMonitors.PointsIn | navigation2/nav2_collision_monitor/src/circle.cpp:61-71 | the same for circles, by squared distance |
| Trajectories.CountInsideIs | navigation2/nav2_collision_monitor/src/polygon.cpp:164-173 | the count for a polygon is the number of points that test inside |
| Trajectories.CountInCircleIs | navigation2/nav2_collision_monitor/src/circle.cpp:61-71 | that for a circle the number of points strictly nearer than the radius |
| CollisionMonitors.SeenIsRigid | navigation2/nav2_collision_monitor/src/kinematics.cpp:22-42 | the transform of the points keeps distances |
| CollisionMonitors.SeenIsInverse | navigation2/nav2_collision_monitor/src/kinematics.cpp:22-42 | turning a transformed point by the heading and moving it to the pose gives the point back |
| CollisionMonitors.VelocityFollowsHeading | navigation2/nav2_collision_monitor/src/kinematics.cpp:44-68 | after any number of steps the simulated velocity is the input turned by the simulated heading |
| Trajectories.StepMoves | navigation2/nav2_collision_monitor/src/kinematics.cpp:44-68 | each step moves the robot by its velocity over the step and turns it at the commanded rate |
| Trajectories.HeadingIs | navigation2/nav2_collision_monitor/src/kinematics.cpp:44-68 | the heading after k steps is k · step · rate |
| Trajectories.VelocityIs | navigation2/nav2_collision_monitor/src/kinematics.cpp:44-68 | the velocity is the command turned counterclockwise by that |
| Trajectories.StraightIs | navigation2/nav2_collision_monitor/src/kinematics.cpp:44-68 | without turning the robot is k steps along its velocity |
| Trajectories.StraightHitsIff | navigation2/nav2_collision_monitor/src/polygon.cpp:192-203 | and hits at step k iff more than `max_points_` of the points, moved back by k + 1 steps, are inside |
| CollisionMonitors.GetCollisionTime | navigation2/nav2_collision_monitor/src/polygon.cpp:175-208 | the loop over reals ends and computes that answer |
| CollisionMonitors.CollisionTimeIsExact | navigation2/nav2_collision_monitor/src/polygon.cpp:186-207 | 0 if enough points are inside already; else the time of the first step within the horizon that hits; −1 iff none does |
| CollisionMonitors.CollisionTimeIsBounded | navigation2/nav2_collision_monitor/src/polygon.cpp:192-207 | a collision time never exceeds the horizon, so its ratio is in [0, 1] |
| CollisionMonitors.ProcessStopSlowdown | navigation2/nav2_collision_monitor/src/collision_monitor_node.cpp:405-432 | the action after one more stop or slowdown polygon: a stop always, a slowdown if strictly slower |
| CollisionMonitors.ProcessApproach | navigation2/nav2_collision_monitor/src/collision_monitor_node.cpp:434-458 | after one more approach polygon, if strictly slower |
| CollisionMonitors.DecidedIsChoice | navigation2/nav2_collision_monitor/src/collision_monitor_node.cpp:363-402 | what is decided polygon by polygon is the slowest of the input and everything asked for, and a stop iff one is asked for |
| CollisionMonitors.FirstSlowestDecides | navigation2/nav2_collision_monitor/src/collision_monitor_node.cpp:363-402 | without a stop the action is that of the first polygon among those that ask for the least, if slower than the input, else none |
| Trajectories.StopAndSlowdownAsk | navigation2/nav2_collision_monitor/src/collision_monitor_node.cpp:405-432 | a stop or slowdown polygon triggers iff more than `max_points_` points are inside, and asks for a standstill or its own ratio |
| Trajectories.ApproachAsks | navigation2/nav2_collision_monitor/src/collision_monitor_node.cpp:434-458 | an approach polygon asks for the time of the first hit over the horizon, 0 with enough points inside already, nothing without a hit |
| Trajectories.ScaledIs | navigation2/nav2_collision_monitor/include/nav2_collision_monitor/types.hpp:36-39 | a ratio scales every component of the velocity, the turning rate too |
| Arbitrations.StopIsFinal | navigation2/nav2_collision_monitor/src/collision_monitor_node.cpp:372-375 | breaking off at a stop skips nothing that matters, because a stop asks for no velocity |
| CollisionMonitors.OnlyApproachHaltsIff | navigation2/nav2_collision_monitor/src/polygon.cpp:186-203 | the approach polygon alone halts the robot iff exactly `max_points_` points are inside, or fewer and the first simulated step goes over the limit; never the stop polygon alone |
| CollisionMonitors.TwinsDisagree | navigation2/nav2_collision_monitor/src/polygon.cpp:186-189 | a scene with one point in which they disagree |
| CollisionMonitors.ChoiceIsLeast | navigation2/nav2_collision_monitor/src/collision_monitor_node.cpp:363-402 | for non-negative ratios the velocity is the input times the minimum of 1 and all ratios asked for |
| CollisionMonitors.OrderIsIrrelevant | navigation2/nav2_collision_monitor/src/collision_monitor_node.cpp:363-402 | for every permutation of the polygons the velocity, and whether it is a stop, is the same |
| Arbitrations.PublishesUntilTimeout | navigation2/nav2_collision_monitor/src/collision_monitor_node.cpp:160-181 | in any run a moving robot is always commanded, a standing one exactly until the timeout after it was told to stop |
| CollisionMonitors.CollisionMonitor.Process | navigation2/nav2_collision_monitor/src/collision_monitor_node.cpp:343-403 | the action is what some triggered polygon asked for or the input, never faster than either, STOP iff a stop polygon triggers; publishing follows the timeout; nothing happens while inactive |
| EstimatorBuffers.BoundedRefinesUnbounded | robot_localization/src/robot_localization_estimator.cpp:73-91 | storing in the bounded buffer is accepting in an unbounded one and keeping the newest |
| EstimatorBuffers.BufferIsNewest | robot_localization/src/robot_localization_estimator.cpp:73-91 | after any offers in any order the buffer is the newest `capacity` of all accepted states |
| EstimatorBuffers.BufferIsTopK | robot_localization/src/robot_localization_estimator.cpp:73-91 | with distinct stamps: strictly increasing, min(k, n) long, all offered, everything dropped older than everything kept |
| EstimatorBuffers.ArrivalOrderIsIrrelevant | robot_localization/src/robot_localization_estimator.cpp:73-91 | the buffer does not depend on the arrival order |
| EstimatorBuffers.AcceptsAllIff | robot_localization/src/robot_localization_estimator.cpp:75-90 | everything offered is accepted iff no offer is as late as the latest before it |
| EstimatorBuffers.LateTwinIsDropped | robot_localization/src/robot_localization_estimator.cpp:76-89 | of two offers with one stamp the second is dropped |
| EstimatorBuffers.EarlyTwinIsKept | robot_localization/src/robot_localization_estimator.cpp:81-89 | with a later state between them it is kept |
| EstimatorBuffers.AnswerIsDetermined | robot_localization/src/robot_localization_estimator.cpp:93-147 | the kind of answer is given, both ways, by where the time falls; never Failed |
| EstimatorBuffers.AnswerIsPredicted | robot_localization/src/robot_localization_estimator.cpp:93-205 | for a time no state has: the last state before it, or the first state, predicted over the difference and stamped with the time asked for |
| EstimatorBuffers.AnswerIsStored | robot_localization/src/robot_localization_estimator.cpp:116-118 | for the time of a state, that state |
| EstimatorBuffers.RobotLocalizationEstimator.SetState | robot_localization/src/robot_localization_estimator.cpp:73-91 | the buffer stays the newest of everything accepted since it was cleared |
| EstimatorBuffers.RobotLocalizationEstimator.GetState | robot_localization/src/robot_localization_estimator.cpp:93-147 | the reverse scan finds the closest earlier state and answers from it |
| WaypointRunners.NextKeepsTiling | wego_2d_nav/src/waypoint_runner.cpp:178-430 | every step of the protocol keeps: the poses the server drove to are the beginning of the route, an outstanding goal is the rest of it, the indices of a node that is driving or paused agree with the server, a paused run has something left |
| WaypointRunners.RunIsTiled | wego_2d_nav/src/waypoint_runner.cpp:178-430 | in every run whose requested routes load, what the server drove to is pose by pose the beginning of the route: no gap, no overlap, nothing lost |
| WaypointRunners.ContinueResumes | wego_2d_nav/src/waypoint_runner.cpp:291-306 | a paused run resumes with the non-empty rest of the route, from `paused_waypoint_` + 1 |
| WaypointRunners.SuccessCompletes | wego_2d_nav/src/waypoint_runner.cpp:372-395 | success leaves `paused_waypoint_` = n−1 and the whole route driven |
| WaypointRunners.RequestDrivesRoute | wego_2d_nav/src/waypoint_runner.cpp:178-430 | a requested route that is accepted and completed is driven from its first waypoint to its last |
| WaypointRunners.RejectionChangesNothing | wego_2d_nav/src/waypoint_runner.cpp:341-356 | a rejected goal leaves the node as it was |
| WaypointRunners.PauseSuspends | wego_2d_nav/src/waypoint_runner.cpp:229-306 | a pause of a running goal answers yes; after the server cancels or aborts the run is paused where it stood and a continue sends the rest |
| WaypointRunners.ContinueAtTheEnd | wego_2d_nav/src/waypoint_runner.cpp:293-298 | a continue with nothing left answers yes and sends nothing |
| WaypointRunners.RefusalChangesNothing | wego_2d_nav/src/waypoint_runner.cpp:229-337 | a pause of what is not running, a continue of what is not paused and an unknown request answer no and change nothing |
| WaypointRunners.ProgressNeverDecreases | wego_2d_nav/src/waypoint_runner.cpp:366-430 | over any events without a scene request, what was driven only grows and the node's count does not go back |
| WaypointRunners.RequestKeepsTilingIff | wego_2d_nav/src/waypoint_runner.cpp:202-226 | a scene request keeps the tiling iff the node is not paused, or the route is usable, or it cannot be read and nothing was driven |
| WaypointRunners.UnreadableRequestRepeatsIff | wego_2d_nav/src/waypoint_runner.cpp:202-226 | after a request for an unreadable route some continuation without a scene request drives to completed waypoints again iff the run was paused and something was driven; otherwise every continuation keeps the tiling |
| WaypointRunners.EmptyRequestStrandsIff | wego_2d_nav/src/waypoint_runner.cpp:202-226 | after a request for an empty route nothing is driven without a new scene; something could have been continued iff the run was paused |
| WaypointRunners.UnknownResultLosesIff | wego_2d_nav/src/waypoint_runner.cpp:424-427 | after a result of unknown code the node knows the progress iff the target was not past the first waypoint |
| WaypointRunners.UnknownResultSilences | wego_2d_nav/src/waypoint_runner.cpp:424-427 | and sends and drives nothing more until a scene is requested |
| WaypointRunners.FailedRequestRepeats | wego_2d_nav/src/waypoint_runner.cpp:202-226 | a run in which a failed request makes the robot repeat a waypoint |
| WaypointRunners.WaypointRunner.SetTask | wego_2d_nav/src/waypoint_runner.cpp:178-337 | the new fields, the goal sent and the answer for each request |
| WaypointRunners.WaypointRunner.ResultCallback | wego_2d_nav/src/waypoint_runner.cpp:366-430 | progress and state after each result code |

## Left out

- ROS plumbing: nodes, publishers, parameters, transforms, diagnostics, logging, `rclcpp::ok()` in loop guards, and debug text.
- Control: the control term of the filters and the latest-control bookkeeping in measurements and saved states; the replay theorem is for a filter without control.
- InOrder.ReplayIsInTimeOrder: asks for a clock that does not go back and for a saved state older than any late measurement; what happens without one is in InOrder.RevertConservesIff.
- InOrder.ReplayEqualsInOrder: asks that overtaking be harmless whenever it happens; overtaking that late data undoes later does no harm either, which InOrder.ReplayIsInTimeOrder with InOrder.OvertakingIsExactIff covers.
- Queued messages before the filter is enabled, pose/twist/IMU preparation, and the `last_set_pose_time_` filter of incoming messages.
- MeasurementSide.ForceTwoD: models the covariance; the zeroed measurement entries and the update vector are plain assignments.
- Ekfs.Ekf.Correct, Ukfs.Ukf.Correct: NaN and infinite measurement entries, which the source skips with a warning, are not numbers of the model; the update vector is taken as already without them.
- Ekfs.Ekf.Predict: the trigonometric transfer function, its Jacobian and dynamic process noise are parameters; `validateDelta` does nothing in the source.
- Ukfs.Ukf.constructor: sets the constants too; the source does so in a second call, once, before the filter is used.
- UkfProofs.FreshRunKeepsCovariance: asks that every factor and inverse taken in the run be right, as `llt()` and `inverse()` promise for positive definite input.
- Rounding, integer widths and overflow: reals and unbounded integers throughout; distances in the inflation layer are kept squared.
- The exponential decay of `computeCost`: any function that is 254 at distance 0, at most 253 beyond, and non-increasing.
- Inflation of cells that their nearest obstacle reaches only through cells of other obstacles: the four-neighbour wave need not be exact there, so only soundness and the upper bound are claimed.
- Raytrace.RaytraceLine: models the default minimum and maximum lengths, the only ones the polygon outline uses.
- Locks, `resizeMap`, static-map and window variants of the costmap; the height and marking of voxels.
- CollisionMonitors.CollisionMonitor.Process: obstacle points arrive as a list, and polygon shapes are fixed for the call; footprint updates are not modelled.
- CollisionMonitors.GetCollisionTime: asks for a positive time step; with another one the source does not terminate.
- CollisionMonitors.ChoiceIsLeast: asks for non-negative slowdown ratios; for others `Arbitrations.IsChoice` still says that the smallest magnitude asked for wins.
- Changing the capacity of the estimator's buffer; a stored time stamp handed to the inner filter as nanoseconds.
- The threads of the waypoint runner: `CONTINUE` is one event at the moment it reads the state, so the cancel flags it waits on and the debounce timer appear only as a parameter; the debug field `current_waypoint_` and the published result codes.
- WaypointRunners.RunIsTiled: assumes one goal outstanding at a time, feedback within the goal, and routes that do not change on disk. A success counts as the whole goal driven: the source logs the server's `missed_waypoints` and ignores them. What an unusable route does is in WaypointRunners.RequestKeepsTilingIff.
