# Verification of the Klipper host and firmware cores

This project models the parts of Klipper (the vendor's copy in `t1-pro/klipper`) on which the safety
and correctness of motion rest, and proves what they promise:

- **Look-ahead planning** (`LookAhead`, `MoveQueue`): the backward pass over a queue of moves, its lazy
  flushes, and the proof that planning bit by bit gives every move exactly the speeds that planning the
  whole path at once would give. `LookAhead` defines each speed from the limits of the moves alone;
  `MoveQueue` holds the source's loop over mutable moves and is proved to compute just those speeds.
- **Timers** (`Words32`, `TimerQueue`, `TimerList`): the firmware's linked timer list, ordered by wrapping
  32-bit times, refines a queue ordered by unbounded time through every add, delete and dispatch.
- **Steps** (`Stepper`, `TriggerSync`, `MovePool`): the step engine with its packed position, the trigger
  that stops steppers, and the pool of move nodes.
- **Pins** (`SoftPwm`, `TmcUart`): software PWM with its safety limit, and the bit-banged UART.
- **The wire** (`Vlq`, `Message`, `Crc`, `Frame`, `BlockFinder`, `Wire`): integers, messages, checksums,
  blocks, and the search for blocks in a stream, for host and firmware together.
- **Time** (`Clock`, `FlushHorizon`): 64-bit clocks from 32-bit samples, and the print time up to which steps
  are generated, moves freed and micro-controllers flushed.

Objects that the source changes in place are classes here, with its fields and its loops. Ghost fields
hold what the source does not store: unbounded times, the order of a list, the steps pulsed, the
waveform drawn. `Valid` ties them to the real fields, every method keeps it, and the contracts speak
about them.

Run `dafny verify dfyconfig.toml` in this directory to check everything.

## Findings

Properties that hold only under a condition are stated with that condition, in both directions:

- The step position is reported exactly as long as the biased position stays in the lower half of the
  32-bit range (`Stepper.Stepper.PositionIsExact`). A stop outside it makes the wrong position reported
  then the one that further steps are added to (`Stepper.Stepper.Stop`).
- The UART shows a buffer bit by bit exactly if its first bit is 0 (`TmcUart.HoldsBitsIff`); the first cell is
  always low, even for a buffer of no bytes.
- `DIV_ROUND_CLOSEST` (`t1-pro/klipper/src/compiler.h:41-44`) does not round negative drifts to the closest integer: division
  truncates, so a drift of -4 over four bits changes the bit time by nothing (`TmcUart.QuarterIsClosestIff`,
  `TmcUart.QuarterNotClosest`).
- The host reads a signed number sent by the firmware exactly from -2^26 up; below that it reads it 2^32
  too high (`Vlq.FirmwareRoundTrip`).
- The host's encoder makes blocks that `check_packet` accepts exactly for bodies of at most 59 bytes
  (`Frame.AcceptsEncodedIff`).
- A buffer parameter with at least as many bytes as there is room for ends one byte beyond the space meant
  for it, since its length byte is not allowed for (`Message.EndsInTimeIff`).
- The uptime is the true clock exactly while no whole range of the counter has gone by between reports
  or since the last one (`Clock.Uptime.GetUptime`), and a 32-bit clock is extended correctly exactly in the window of
  `Clock.ClockSync.RecoversIff`.
- A soft PWM pin configured away from its default with a limit is not protected until its first update
  (`SoftPwm.DigitalOut.constructor`). The host refuses such a configuration for digital pins and for PWM pins
  (`t1-pro/klipper/klippy/mcu.py:257-259` and `t1-pro/klipper/klippy/mcu.py:313-315`).
- The limit of a soft PWM pin is missed for some queued clocks: when the pulses of an update are longer than
  the limit, and the clock of the update behind it lies half the counter's range away, in a window as wide
  as that excess, neither comparison stops the pulses (`SoftPwm.DigitalOut.LoadEvent`, `SoftPwm.EscapeWindow`).
  With a limit of 1000 ticks, pulses of 3000 ticks loaded at clock 1000 and a next update for clock 2^31 + 2500,
  the pin toggles on for more than 2^31 ticks (`SoftPwm.LimitMissed`). For all other clocks it is protected. A
  pulse or pause of more than 2^31 ticks can also step over the end (`SoftPwm.DigitalOut.ToggleEvent`); the host
  allows no such cycle (`t1-pro/klipper/klippy/mcu.py:354-355`).
- The last move time of the tool head, unlike its four flush times, can go backward
  (`FlushHorizon.LastMoveTimeGoesBack`). It does so exactly when the moves handed over are completed and
  end before it, and when they end can be told before they are handed over
  (`FlushHorizon.ToolHead.ProcessMoves`, `FlushHorizon.ToolHead.StartTime`).

## Model

| member | source | states |
|---|---|---|
| `LookAhead.StartIsFastest` | t1-pro/klipper/klippy/toolhead.py:135-139 | the start speeds of the backward pass are the fastest that keep every junction limit and can still stop at the end: no other such profile exceeds them anywhere |
| `LookAhead.SmoothedIsFastest` | t1-pro/klipper/klippy/toolhead.py:140-141 | the smoothed speeds are the fastest that keep every smoothed limit and can still stop under the smoothed profile |
| `LookAhead.TurnsIff` | t1-pro/klipper/klippy/toolhead.py:142-147 | a move accelerates exactly if it need not spend all of its smoothed delta on slowing down, and tops out exactly if it can also rise above the next smoothed speed or the next move only decelerates |
| `LookAhead.PeakIsHighest` | t1-pro/klipper/klippy/toolhead.py:151-152 | the peak of a turn is the highest speed its limit allows that it can reach and slow down from under the smoothed profile |
| `LookAhead.PeakOfNextTurn` | t1-pro/klipper/klippy/toolhead.py:135-152 | every other move has the peak of the next turn, or none |
| `LookAhead.CapIsHighest` | t1-pro/klipper/klippy/toolhead.py:153-161 | a run of decelerating moves carries the highest speed that the peak before it and the entry speeds since allow |
| `LookAhead.PlanIsFastest` | t1-pro/klipper/klippy/toolhead.py:157-166 | each move cruises as fast as its limit, its peak and its length allow, and is entered and left as fast as the profile and the cruising speed allow |
| `LookAhead.SplitIsLast` | t1-pro/klipper/klippy/toolhead.py:148-150 | no prefix longer than that before the split is settled |
| `LookAhead.ProfileBounds` | t1-pro/klipper/klippy/toolhead.py:138-141 | 0 <= smoothed <= start <= the move's own limit at every move; an accelerating move is entered at its own smoothed limit |
| `LookAhead.ProfilesGrow` | t1-pro/klipper/klippy/toolhead.py:135-141 | moves queued later can only raise both backward profiles |
| `LookAhead.PeakCovers` | t1-pro/klipper/klippy/toolhead.py:142-152 | an accelerating move always has a turn behind it, and the peak speed that turn sets is positive and covers the smoothed speeds around it |
| `LookAhead.PeakIsPositive` | t1-pro/klipper/klippy/toolhead.py:148-152 | the source's test that a peak is set (not zero) is exactly that there is a turn later in the queue |
| `LookAhead.AfterTurnAtLimit` | t1-pro/klipper/klippy/toolhead.py:126-152 | the first accelerating move after a turn has smoothed limit equal to start limit, and both profiles reach it |
| `LookAhead.LimitIsStable` | t1-pro/klipper/klippy/toolhead.py:138-142 | such a move keeps accelerating with the same profiles however the path is extended |
| `LookAhead.TurnIsStable` | t1-pro/klipper/klippy/toolhead.py:142-152 | a turn with another turn behind it keeps its profiles and its peak however the path is extended |
| `LookAhead.SettledPrefixIsFinal` | t1-pro/klipper/klippy/toolhead.py:126-173 | a lazily committed prefix never needs revising: on every extension of the path its moves get the very speeds they already have |
| `LookAhead.TailPlans` | t1-pro/klipper/klippy/toolhead.py:175-177 | after a lazy flush the moves left in the queue are planned as if the whole path were still queued |
| `LookAhead.TailSettled` | t1-pro/klipper/klippy/toolhead.py:148-150 | a flush point found in what is left of a path is a flush point of the whole path |
| `LookAhead.FrontAccelerates` | t1-pro/klipper/klippy/toolhead.py:134-173 | the front of every reachable queue is an accelerating move, so nothing is left delayed when the pass ends |
| `LookAhead.CapBounds` | t1-pro/klipper/klippy/toolhead.py:155-161 | the speed carried over a run of delayed moves stays positive, at least the smoothed speeds and at most the entry speeds |
| `LookAhead.Continuous` | t1-pro/klipper/klippy/toolhead.py:155-166 | each move ends at exactly the speed at which the next one starts |
| `LookAhead.PlansAreFeasible` | t1-pro/klipper/klippy/toolhead.py:92-106 | every planned move keeps start <= its limit, start and end <= cruise <= its maximum, cruise > 0, and never needs more than its length to change speed |
| `LookAhead.PathPlan` | t1-pro/klipper/klippy/toolhead.py:126-177 | the plan of a whole path starts at rest, joins up at every boundary, respects every limit and ends at rest |
| `MoveQueue.DistancesAreSound` | t1-pro/klipper/klippy/toolhead.py:92-97 | a feasible plan gives non-negative acceleration, cruise and deceleration distances that add up to the move, over which the squared speed changes by just what the acceleration allows |
| `MoveQueue.FullReach` | t1-pro/klipper/klippy/toolhead.py:43-48 | a move that accelerates by all of its delta spends exactly its length on it |
| `MoveQueue.ShortestTime` | t1-pro/klipper/klippy/toolhead.py:40-42 | in its shortest time a move covers its length at its cruising speed |
| `MoveQueue.Move.constructor` | t1-pro/klipper/klippy/toolhead.py:15-48 | a new kinematic move has consistent limits and may not yet be entered at speed; an extrude-only move is limited by its own speed and a very high acceleration |
| `MoveQueue.Move.LimitSpeed` | t1-pro/klipper/klippy/toolhead.py:49-56 | lowers speed and acceleration and leaves every limit consistent, for extrude-only moves too |
| `MoveQueue.Move.CalcJunction` | t1-pro/klipper/klippy/toolhead.py:61-91 | the junction limit never exceeds either move's cruise limit or what the previous move can reach; the smoothed limit is the smaller of it and what the previous move can reach smoothed; a reversal or a change to or from extrude-only leaves both at zero |
| `MoveQueue.CornerLimit` | t1-pro/klipper/klippy/toolhead.py:76-87 | the corner's own limit is the least of the centripetal and extruder bounds |
| `MoveQueue.Move.SetJunction` | t1-pro/klipper/klippy/toolhead.py:92-101 | sets the three speeds and the distances that follow from them, and counts the call |
| `MoveQueue.PropagatePeak` | t1-pro/klipper/klippy/toolhead.py:153-161 | gives exactly the delayed moves the speeds of the plan, front to back, each once |
| `MoveQueue.PassTurn` | t1-pro/klipper/klippy/toolhead.py:144-152 | one step of the pass at a turn keeps what its variables mean: the peak, and the flush point as the last turn with a turn behind it |
| `MoveQueue.PassFullAcceleration` | t1-pro/klipper/klippy/toolhead.py:142-147 | an accelerating move that does not top out leaves peak and flush point alone |
| `MoveQueue.PassDelayed` | t1-pro/klipper/klippy/toolhead.py:167-171 | a decelerating move joins the delayed run |
| `MoveQueue.DelayedBeforeFlush` | t1-pro/klipper/klippy/toolhead.py:155-155 | delayed moves never straddle the flush point, so testing one move of a run is enough |
| `MoveQueue.FlushesMost` | t1-pro/klipper/klippy/toolhead.py:148-175 | a lazy flush commits the longest settled prefix of the queue, a full one all of it |
| `MoveQueue.PassEnds` | t1-pro/klipper/klippy/toolhead.py:172-175 | when the pass ends nothing is delayed and the flush count is the split of the queue |
| `MoveQueue.BackwardPass` | t1-pro/klipper/klippy/toolhead.py:134-171 | the loop gives exactly the moves before the flush point the speeds of the plan and touches no other move |
| `MoveQueue.AdvancePath` | t1-pro/klipper/klippy/toolhead.py:172-177 | flushing the moves before the split again leaves a settled prefix of the whole path |
| `MoveQueue.QueuePlansArePathPlans` | t1-pro/klipper/klippy/toolhead.py:126-177 | the plan computed for the queue alone is the whole path's plan for those moves |
| `MoveQueue.ExtendPath` | t1-pro/klipper/klippy/toolhead.py:178-186 | queueing another move keeps the path a path and leaves the plan of the committed prefix as it was |
| `MoveQueue.CommitMoves` | t1-pro/klipper/klippy/toolhead.py:126-175 | the committed moves have each had their speeds and distances set exactly once, to the plan's; the others not at all |
| `MoveQueue.MoveQueue.constructor` | t1-pro/klipper/klippy/toolhead.py:113-116 | an empty queue at the start of a path |
| `MoveQueue.MoveQueue.HandOver` | t1-pro/klipper/klippy/toolhead.py:174-177 | the flushed moves leave the queue in order and are handed over with the speeds of the path's plan |
| `MoveQueue.MoveQueue.Flush` | t1-pro/klipper/klippy/toolhead.py:126-177 | incremental planning equals batch planning: a full flush completes the path with exactly the speeds one flush of all its moves would give, whatever lazy flushes came before; a lazy one hands over just the settled moves |
| `MoveQueue.HandedOverFeasibly` | t1-pro/klipper/klippy/toolhead.py:92-101 | moves given the speeds of their path's plan keep their limits, and spend a non-negative distance in each phase and their length in all |
| `MoveQueue.MoveQueue.ProcessedFeasibly` | t1-pro/klipper/klippy/toolhead.py:92-101 | so does every move ever handed over, however it was flushed |
| `MoveQueue.MoveQueue.AddMove` | t1-pro/klipper/klippy/toolhead.py:178-186 | the move is linked to the last one, limited at their junction, and queued; the flush time runs down and triggers a lazy flush |
| `MoveQueue.MoveQueue.Reset` | t1-pro/klipper/klippy/toolhead.py:117-119 | drops the queue and starts a new path; the moves handed over stay |
| `MoveQueue.MoveQueue.SetFlushTime` | t1-pro/klipper/klippy/toolhead.py:120-121 | sets the time to the next lazy flush and nothing else |
| `MoveQueue.MoveQueue.GetLast` | t1-pro/klipper/klippy/toolhead.py:122-125 | the last move of the path while it is still waiting: its speeds are not set yet and it is not handed over; there is none exactly at rest |
| `Words32.WrappedOrder` | t1-pro/klipper/src/sched.c:66-82 | comparing wrapped times decides the order of true times less than half the counter's range apart |
| `Words32.BeforeExactlyOne` | t1-pro/klipper/src/sched.c:50-54 | every wake time is before exactly one of the periodic timer's and the sentinel's |
| `TimerQueue.InsertKeepsSorted` | t1-pro/klipper/src/sched.c:66-82 | inserting by time keeps the order |
| `TimerQueue.InsertAddsOne` | t1-pro/klipper/src/sched.c:66-82 | inserting adds exactly the one timer and loses none |
| `TimerQueue.InsertBetween` | t1-pro/klipper/src/sched.c:66-82 | a timer goes behind every timer that is not later: first come, first served |
| `TimerQueue.RemoveUndoesInsert` | t1-pro/klipper/src/sched.c:120-143 | deleting a timer that was just added restores the queue |
| `TimerQueue.RemovesJustThat` | t1-pro/klipper/src/sched.c:121-142 | deleting a timer takes out its entry and no other, and keeps the order |
| `TimerQueue.WithoutExactly` | t1-pro/klipper/src/sched.c:121-142 | what is left after several deletions are just the other timers, in order |
| `TimerQueue.SearchFindsPosition` | t1-pro/klipper/src/sched.c:71-79 | the first entry the wrapped comparison stops at is the place in true time |
| `TimerQueue.SearchEnds` | t1-pro/klipper/src/sched.c:50-54 | there always is an entry to stop at: the sentinel, or the periodic timer before it |
| `TimerList.InsertTimer` | t1-pro/klipper/src/sched.c:66-82 | the search loop stops, at the first timer the new one is before, and links it in just there |
| `TimerList.InsertSorted` | t1-pro/klipper/src/sched.c:66-82 | the place found by wrapped comparison is the place in the order of true times |
| `TimerList.Unlink` | t1-pro/klipper/src/sched.c:131-139 | takes exactly the one timer out of the linked list, or nothing when it is not there |
| `TimerList.ShapeInserted` | t1-pro/klipper/src/sched.c:84-107 | insertion keeps the list sorted, without repetition, with the dummy nowhere but at its head, and inserts into the live timers |
| `TimerList.ShapeAddedFirst` | t1-pro/klipper/src/sched.c:91-102 | putting a timer first behind the dummy, or behind the dummy already there, inserts it into the live timers |
| `TimerList.ShapeRemoved` | t1-pro/klipper/src/sched.c:131-141 | deletion keeps the shape, and `last_insert` a proper member of the list |
| `TimerList.ShapeHeadDeleted` | t1-pro/klipper/src/sched.c:125-129 | replacing the head by the dummy deletes exactly the head from the live timers |
| `TimerList.ShapeReinserted` | t1-pro/klipper/src/sched.c:168-176 | putting the running timer back, wherever its new time belongs, keeps the shape |
| `TimerList.Scheduler.constructor` | t1-pro/klipper/src/sched.c:20-64 | the list at power-up holds just the periodic timer |
| `TimerList.Scheduler.AddTimer` | t1-pro/klipper/src/sched.c:84-107 | the live timers are the old ones with the new one inserted by true time; refused exactly when it would be first, is past already, and the machine is not shut down |
| `TimerList.Scheduler.DelTimer` | t1-pro/klipper/src/sched.c:120-143 | the live timers are the old ones without this one, live or not, at the head or not |
| `TimerList.Scheduler.PeriodicEvent` | t1-pro/klipper/src/sched.c:31-43 | the periodic timer moves on by its period and keeps the sentinel half the counter's range ahead |
| `TimerList.Scheduler.FinishHead` | t1-pro/klipper/src/sched.c:163-167 | a finished timer leaves, and `last_insert` moves on with it if it was that |
| `TimerList.Scheduler.RescheduleHead` | t1-pro/klipper/src/sched.c:168-176 | the head goes back by its new time, searched for from `last_insert` or from the head, including when `last_insert` is the timer itself |
| `TimerList.Scheduler.CancelAll` | t1-pro/klipper/src/sched.c:120-143 | a callback that deletes other timers deletes exactly those, and the running one stays the head |
| `TimerList.Scheduler.Dispatch` | t1-pro/klipper/src/sched.c:145-179 | whatever the callback does, the live timers afterwards are exactly the others, with the running one inserted by its new time if it asked for that; the wake time returned is the first timer's |
| `TimerList.Scheduler.Reset` | t1-pro/klipper/src/sched.c:181-190 | only the periodic timer is left alive |
| `TimerList.Scheduler.LiveIsSorted` | t1-pro/klipper/src/sched.c:45-64 | in every reachable list the live timers are in time order, each once, less than half the counter's range apart, with the periodic timer and without sentinel and dummy |
| `TimerList.Scheduler.LiveIsTheList` | t1-pro/klipper/src/sched.c:45-64 | the live timers are just those linked in the list, without the sentinel and the dummy, with the wake times that memory holds |
| `TimerList.SearchStops` | t1-pro/klipper/src/sched.c:50-54 | for every 32-bit wake time, with no assumption on it, the search ends at or before the sentinel |
| `Stepper.IntervalClosedForm` | t1-pro/klipper/src/stepper.c:64-116 | the interval after n steps of a move is interval + n * add, modulo 2^32 |
| `Stepper.StepTimeClosedForm` | t1-pro/klipper/src/stepper.c:64-116 | step n of a move is nominally at base + n * interval + add * n * (n - 1) / 2, modulo 2^32 |
| `Stepper.OneStepFurther` | t1-pro/klipper/src/stepper.c:109-113 | from one nominal time to the next it is the interval grown by add once for every step before |
| `Stepper.PackedReverses` | t1-pro/klipper/src/stepper.c:90-94 | negating the packed word on a change of direction keeps the position it stands for |
| `Stepper.UnpackPacked` | t1-pro/klipper/src/stepper.c:281-295 | unpacking gives the position back exactly as long as it has not left the half of the range the sign bit leaves |
| `Stepper.QueueOneMore` | t1-pro/klipper/src/stepper.c:221-246 | a move more adds its flag to the direction reached and its steps to the net distance |
| `Stepper.QueueJoined` | t1-pro/klipper/src/stepper.c:221-246 | a queue of moves leads to the same direction and net distance whether it is loaded in one part or in two |
| `Stepper.TravelledSoFar` | t1-pro/klipper/src/stepper.c:63-116 | the way of the first steps of a run is the net distance of the moves loaded, less the steps of the last one still to come, whatever moves follow |
| `Stepper.TimesOfPart` | t1-pro/klipper/src/stepper.c:63-116 | the nominal step times of a run do not depend on the moves that follow |
| `Stepper.Stepper.constructor` | t1-pro/klipper/src/stepper.c:184-208 | a new stepper is at position zero, idle, with an empty queue |
| `Stepper.Stepper.LoadNext` | t1-pro/klipper/src/stepper.c:63-100 | the next move starts where the last one ended: its steps enter the position in the direction of the pin, its clock counts on from the last step |
| `Stepper.Stepper.EventEdge` | t1-pro/klipper/src/stepper.c:102-116 | each event is one step, counted in the direction of the pin and made at its nominal time; a move that ends is followed by the next one queued, and moves loaded and queued stay the same run |
| `Stepper.Stepper.EventFull` | t1-pro/klipper/src/stepper.c:141-171 | every other event is one step, at its nominal time however late the event; no edge comes within a pulse width of another; the machine shuts down exactly when the first step of the next move is overdue by more than a millisecond |
| `Stepper.Stepper.QueueStep` | t1-pro/klipper/src/stepper.c:219-250 | the run grows by just this move, in the direction last set, queued or loaded at once; a stopped stepper drops it and stays stopped; a count of zero is an error |
| `Stepper.Stepper.SetNextStepDir` | t1-pro/klipper/src/stepper.c:254-263 | sets the direction of moves queued from now on and nothing else |
| `Stepper.Stepper.ResetStepClock` | t1-pro/klipper/src/stepper.c:266-278 | a new run starts from the given clock, the steps made and the direction of the pin; an error while moves are active |
| `Stepper.Stepper.Stop` | t1-pro/klipper/src/stepper.c:310-328 | everything queued is dropped, the reported position stays what it was, which in range is the steps really made, and nothing moves until the clock is reset |
| `Stepper.Stepper.PositionIsExact` | t1-pro/klipper/src/stepper.c:281-295 | in every reachable state, mid-move too, the reported position is the signed sum of the steps pulsed exactly as long as that sum is in range, unless a stop out of range has lost it before |
| `Stepper.Stepper.ReportedPosition` | t1-pro/klipper/src/stepper.c:281-295 | without such a stop, for sums from -2^30 to 2^30 the reported position less the bias is that sum itself |
| `Stepper.Stepper.DrainedQueue` | t1-pro/klipper/src/stepper.c:63-116 | once the queue has drained, the steps made are exactly those of the accepted moves, in the directions asked for, at the times of the run |
| `Stepper.Stepper.TimesArePrefix` | t1-pro/klipper/src/stepper.c:63-116 | at any moment the steps made are the first ones of the nominal run |
| `Stepper.Stepper.WholeRun` | t1-pro/klipper/src/stepper.c:221-246 | moves loaded and queued together lead to the direction last queued and to the distance accepted |
| `Stepper.Stepper.StepsAreFirst` | t1-pro/klipper/src/stepper.c:63-171 | at any moment, in either mode, the steps made are the first ones of the whole run, loaded and queued: in their times and in how far they lead |
| `Stepper.StepOfRun` | t1-pro/klipper/src/stepper.c:63-116 | step k of move i of a run is at its closed-form time, counted from the end of the moves before it |
| `Stepper.Stepper.StepOnTime` | t1-pro/klipper/src/stepper.c:63-171 | every step a stepper has made was at the closed-form time of that step of its run, in either mode |
| `Stepper.Stepper.DrainEdge` | t1-pro/klipper/src/stepper.c:102-116 | the events of an edge-mode stepper end with its queue drained: exactly the steps of the whole run, at their nominal times, and the accepted position |
| `Stepper.Stepper.DrainFull` | t1-pro/klipper/src/stepper.c:141-171 | so do those of a double-scheduled stepper, whenever its events run, unless the machine shuts down |
| `Stepper.SameNominalSteps` | t1-pro/klipper/src/stepper.c:102-171 | for every queue, both modes make the same steps at the same nominal times; after equally many steps both have gone the same way and report the same position while in range; drained, they have made all the same steps and report the same position |
| `TriggerSync.Signal.Call` | t1-pro/klipper/src/stepper.c:310-328 | a called signal stops its stepper where it is |
| `TriggerSync.TriggerSync.DoTrigger` | t1-pro/klipper/src/trsync.c:26-45 | the first trigger since the start takes effect and calls every registered signal exactly once; any later one does nothing |
| `TriggerSync.TriggerSync.CallSignals` | t1-pro/klipper/src/trsync.c:36-43 | the list is emptied and each signal on it called exactly once |
| `TriggerSync.TriggerSync.AddSignal` | t1-pro/klipper/src/trsync.c:83-95 | a signal is registered at the front; one that is already active is an error |
| `TriggerSync.TriggerSync.Clear` | t1-pro/klipper/src/trsync.c:97-112 | unregisters every signal without calling it, and stops both timers |
| `TriggerSync.TriggerSync.Start` | t1-pro/klipper/src/trsync.c:114-127 | a new round: nothing registered, no trigger taken effect, and the next one will |
| `TriggerSync.TriggerSync.SetTimeout` | t1-pro/klipper/src/trsync.c:132-144 | arms the timeout unless the trigger has fired |
| `TriggerSync.TriggerSync.ExpireEvent` | t1-pro/klipper/src/trsync.c:47-54 | the timeout triggers with the reason given at the start, if nothing did before |
| `TriggerSync.TriggerSync.ReportEvent` | t1-pro/klipper/src/trsync.c:56-65 | a report becomes due, and the next one a period later |
| `TriggerSync.TriggerSync.TriggerCommand` | t1-pro/klipper/src/trsync.c:154-167 | the reason reported is that of the trigger that took effect in this round |
| `TriggerSync.TriggerSync.ReportTask` | t1-pro/klipper/src/trsync.c:170-188 | a due report gives the reason of the trigger that took effect |
| `MovePool.Pool.MoveFree` | t1-pro/klipper/src/basecmd.c:74-81 | the node held goes on the free list and nowhere else |
| `MovePool.Pool.MoveAlloc` | t1-pro/klipper/src/basecmd.c:83-94 | takes a free node, which is then held and in no list; none is left exactly when the free list is empty |
| `MovePool.Pool.Push` | t1-pro/klipper/src/basecmd.c:110-122 | the node goes to the end of the one queue; tells whether it is the first there |
| `MovePool.Pool.Pop` | t1-pro/klipper/src/basecmd.c:124-131 | takes the node that has been in the queue longest |
| `MovePool.Pool.MoveReset` | t1-pro/klipper/src/basecmd.c:152-166 | every node is on the free list exactly once, whatever lists they were on |
| `MovePool.Pool.ClearQueue` | t1-pro/klipper/src/basecmd.c:133-138 | empties a queue without looking at its nodes |
| `MovePool.Pool.LoadNext` | t1-pro/klipper/src/stepper.c:64-99 | the next node of a queue goes from the queue to the free list, and no node stays held |
| `MovePool.Pool.StopQueue` | t1-pro/klipper/src/stepper.c:323-327 | every node of the queue goes to the free list, the oldest first |
| `MovePool.Pool.QueueNew` | t1-pro/klipper/src/gpiocmds.c:144-154 | a free node joins the end of the queue; with none left the machine shuts down |
| `MovePool.Pool.QueueStep` | t1-pro/klipper/src/stepper.c:219-250 | a node is queued, dropped or loaded at once as the stepper is active, waiting for a reset or idle; none is left held unless the machine shuts down |
| `MovePool.Carry` | t1-pro/klipper/src/stepper.c:219-250 | each command and event keeps the number of nodes free or in its queue, and leaves none held, unless it shuts the machine down; exactly when it does so |
| `MovePool.RunShutdown` | t1-pro/klipper/src/basecmd.c:152-166 | in whatever order the shutdown functions run, from whatever state, in the end all queues are empty and the free list holds every node exactly once |
| `MovePool.RunCommands` | t1-pro/klipper/src/basecmd.c:74-166 | over any run of commands and events, ended by a shutdown or not, the pool stays valid and no node stays held |
| `MovePool.NothingLost` | t1-pro/klipper/src/basecmd.c:83-94 | between commands the free nodes and the lengths of all queues add up to the number of nodes, so allocation fails exactly when every node is queued |
| `Words32.ClosestOrder` | t1-pro/klipper/src/gpiocmds.c:88-90 | a wrapped comparison with a time is a comparison with the true time closest to it that has the given low bits |
| `SoftPwm.EscapeWindow` | t1-pro/klipper/src/gpiocmds.c:85-111 | pulses escape the limit exactly when the clock of the update behind lies in a window of signed distances from the load, as wide as the pulses are longer than the limit: never when they are no longer than the limit |
| `SoftPwm.WithinLimit` | t1-pro/klipper/src/gpiocmds.c:88-98 | a clock the limit check lets pass is due within the limit, as the timer takes it |
| `SoftPwm.BeyondPulse` | t1-pro/klipper/src/gpiocmds.c:88-106 | a clock that passes the limit check and is yet beyond the first pulse is due within the limit if the pulse is no longer than the limit, and otherwise more than half the range after it |
| `SoftPwm.DigitalOut.constructor` | t1-pro/klipper/src/gpiocmds.c:116-126 | a pin is protected from the start exactly if it is configured at its default or has no limit |
| `SoftPwm.DigitalOut.ToggleEvent` | t1-pro/klipper/src/gpiocmds.c:34-53 | after a toggle to high the next event is on_duration later and after one to low off_duration, until the end time, which is reached and not passed, and is then a load; a protected pin stays protected exactly if the next pulse or pause does not reach 2^31 ticks beyond the end |
| `SoftPwm.PulseTrain` | t1-pro/klipper/src/gpiocmds.c:34-114 | over any number of events between two loads every pulse lasts on_duration, every pause off_duration, and every two changes take a cycle, up to the load |
| `SoftPwm.DigitalOut.LimitedIff` | t1-pro/klipper/src/gpiocmds.c:66-84 | an update is limited exactly if it leaves the pin toggling or away from its default and there is a limit |
| `SoftPwm.DigitalOut.LoadEvent` | t1-pro/klipper/src/gpiocmds.c:55-114 | applies the next update, for queued clocks of any value; with none queued, or the next beyond the limit, it is a shutdown that writes the default; otherwise the pin is protected if and only if the pulses do not escape the limit, and if they do it toggles on for more than 2^31 ticks beyond it |
| `SoftPwm.DigitalOut.FindLimit` | t1-pro/klipper/src/gpiocmds.c:66-84 | an update that toggles the pin or leaves it away from its default is limited to max_duration |
| `SoftPwm.DigitalOut.LoadedIsProtected` | t1-pro/klipper/src/gpiocmds.c:66-111 | under the limit a loaded update is protected exactly if its pulses do not escape the limit |
| `SoftPwm.DigitalOut.SetPwmCycle` | t1-pro/klipper/src/gpiocmds.c:131-140 | the cycle, of any length, changes only while nothing is queued |
| `SoftPwm.DigitalOut.QueueDigitalOut` | t1-pro/klipper/src/gpiocmds.c:144-173 | any clock is taken in; the first update queued decides when to load, one beyond the limit shuts the pin down, and a protected pin stays protected |
| `SoftPwm.DigitalOut.UpdateDigitalOut` | t1-pro/klipper/src/gpiocmds.c:177-194 | the pin changes at once and, when away from its default, is due for a load at most max_duration later |
| `SoftPwm.DigitalOut.DigitalOutShutdown` | t1-pro/klipper/src/gpiocmds.c:196-207 | the pin is at its default with nothing queued |
| `SoftPwm.LeftAlone` | t1-pro/klipper/src/gpiocmds.c:34-114 | a protected pin that gets no command is put back to its default by its own timer, no later than max_duration after the last update |
| `SoftPwm.LimitMissed` | t1-pro/klipper/src/gpiocmds.c:85-106 | a run of commands, with a limit of 1000 ticks and pulses of 3000, after which the pin toggles unprotected for more than 2^31 ticks |
| `TmcUart.WithBitChangesOne` | t1-pro/klipper/src/tmcuart.c:60-65 | storing a sample changes that bit and no other |
| `TmcUart.SyncNibble` | t1-pro/klipper/src/tmcuart.c:207-207 | the mask test holds exactly for buffers whose first six bits are 0 1 0 1 0 1 |
| `TmcUart.DrawToggled` | t1-pro/klipper/src/tmcuart.c:119-142 | toggling the line at the start of a cell draws a bit that differs from the one before, and leaves the earlier cells as drawn |
| `TmcUart.DrawHeld` | t1-pro/klipper/src/tmcuart.c:126-138 | leaving the line alone for a cell draws a bit that equals the one before |
| `TmcUart.HoldsBitsIff` | t1-pro/klipper/src/tmcuart.c:114-142 | the run-length schedule holds the line at bit k throughout cell k for every bit, and ends after exactly as many bit times as there are bits, if and only if the first bit is 0 |
| `TmcUart.SamplingRestores` | t1-pro/klipper/src/tmcuart.c:53-72 | sampling once per bit time from anywhere in the first cell reads back all the bits |
| `TmcUart.QuarterIsClosestIff` | t1-pro/klipper/src/tmcuart.c:163-163 | a quarter of the drift is rounded to the closest integer exactly when the drift is at least -2 or is 2 more than a multiple of 4; other negative drifts are rounded up by more |
| `TmcUart.QuarterNotClosest` | t1-pro/klipper/src/compiler.h:41-44 | a drift of -4 is rounded to 0 |
| `TmcUart.DrawingDrifts` | t1-pro/klipper/src/tmcuart.c:159-167 | the drift measured at the fifth toggle moves only the cells after it |
| `TmcUart.CellsFollowFifth` | t1-pro/klipper/src/tmcuart.c:159-167 | made as late as the first toggle, those after the fifth follow it by whole bit times from when it was really made |
| `TmcUart.TrackableIff` | t1-pro/klipper/src/tmcuart.c:159-167 | the cells can follow just the drifts that leave a bit time and keep the toggles in order, among them all of at most half a bit |
| `TmcUart.Uart.constructor` | t1-pro/klipper/src/tmcuart.c:172-184 | a new uart idles high |
| `TmcUart.Uart.ResetLine` | t1-pro/klipper/src/tmcuart.c:32-41 | the line is back to idle and the uart free |
| `TmcUart.Uart.Finalize` | t1-pro/klipper/src/tmcuart.c:43-51 | the transmission is over and its reply due to be reported |
| `TmcUart.Uart.Send` | t1-pro/klipper/src/tmcuart.c:189-217 | starts sending the buffer's bits, on the path its first byte asks for; a busy uart ignores the request, a buffer too large is an error |
| `TmcUart.Uart.SendEvent` | t1-pro/klipper/src/tmcuart.c:114-142 | one event draws a whole run of equal bits; progress until the last bit is drawn |
| `TmcUart.Uart.FindRun` | t1-pro/klipper/src/tmcuart.c:122-141 | the search for the next toggle stops at the first bit that differs, or at the end |
| `TmcUart.Uart.SendSyncEvent` | t1-pro/klipper/src/tmcuart.c:144-170 | draws one bit of the sync nibble; the first toggle notes how late it is, the fifth sets the bit time from how much later it is |
| `TmcUart.Uart.SendFinishEvent` | t1-pro/klipper/src/tmcuart.c:97-112 | ends the transmission, or starts waiting for a reply |
| `TmcUart.Uart.ReadSyncEvent` | t1-pro/klipper/src/tmcuart.c:74-95 | reading starts at the first low level after a high one; after 65 samples without that nothing has been read |
| `TmcUart.Uart.ReadEvent` | t1-pro/klipper/src/tmcuart.c:53-72 | stores one sample; after the last one the buffer holds all of them |
| `TmcUart.Uart.Receive` | t1-pro/klipper/src/tmcuart.c:53-72 | sampling a whole reply leaves exactly its samples in the buffer |
| `TmcUart.Uart.Listen` | t1-pro/klipper/src/tmcuart.c:53-95 | a uart waiting on the line of a sender with the same bit time samples each bit in its cell, when its event is due, and ends up with the sender's bits |
| `TmcUart.Uart.AwaitReply` | t1-pro/klipper/src/tmcuart.c:73-95 | a uart looking at an idle line once every bit time meets a reply that starts no later than its 65th look in its first cell and ends up with the sender's bits, and gives up a later one |
| `TmcUart.Uart.Transmit` | t1-pro/klipper/src/tmcuart.c:109-172 | without drift the whole buffer is drawn in cells of the configured bit time, and with one in cells that follow it |
| `TmcUart.Uart.Shutdown` | t1-pro/klipper/src/tmcuart.c:240-248 | the line is idle and nothing is reported |
| `Vlq.EncodeHost` | t1-pro/klipper/klippy/msgproto.py:44-49 | appends one to five bytes; the round trips below say what they mean |
| `Vlq.EncodeFirmware` | t1-pro/klipper/src/command.c:39-54 | appends one to five bytes; the round trips below say what they mean |
| `Vlq.ParseHost` | t1-pro/klipper/klippy/msgproto.py:50-62 | reads the digits up to the first byte without a continuation bit; an unsigned value is reduced to 32 bits |
| `Vlq.WrapShifted` | t1-pro/klipper/src/command.c:64-67 | dropping the bits above 32 at every step leaves the same word in the end |
| `Vlq.ParseFirmware` | t1-pro/klipper/src/command.c:56-70 | reads the same bytes as the host's parser, and its value modulo 2^32 |
| `Vlq.ReadsExactly` | t1-pro/klipper/klippy/msgproto.py:50-62 | a complete encoding is read in full and nothing after it |
| `Vlq.ReadIsComplete` | t1-pro/klipper/klippy/msgproto.py:50-62 | whatever is read is a complete encoding and its value |
| `Vlq.NothingReadIff` | t1-pro/klipper/klippy/msgproto.py:50-62 | nothing is read exactly when the bytes run out before an encoding is complete |
| `Vlq.PrefixFree` | t1-pro/klipper/klippy/msgproto.py:44-49 | no complete encoding is a proper prefix of another |
| `Vlq.HostValue` | t1-pro/klipper/klippy/msgproto.py:44-49 | what the host writes is complete and stands for the number reduced to 35 bits |
| `Vlq.FirmwareValue` | t1-pro/klipper/src/command.c:39-54 | what the firmware writes is complete and stands for the signed number when it is short, and the unsigned one when it takes five bytes |
| `Vlq.ShortestBytes` | t1-pro/klipper/src/command.c:39-54 | both encoders write the shortest encoding of a number |
| `Vlq.ReadsHostBytes` | t1-pro/klipper/klippy/msgproto.py:39-62 | decoding consumes exactly what the host's encoder wrote, for every integer |
| `Vlq.ReadsFirmwareBytes` | t1-pro/klipper/src/command.c:39-70 | decoding consumes exactly what the firmware's encoder wrote, for every word |
| `Vlq.HostRoundTrip` | t1-pro/klipper/klippy/msgproto.py:39-65 | the host gets an unsigned value back exactly for 0 to 2^32 - 1, a signed one exactly from -2^33 to 3 * 2^33 - 1, and any value modulo 2^32 |
| `Vlq.FirmwareRoundTrip` | t1-pro/klipper/src/command.c:39-54 | every decoder gets a firmware word back modulo 2^32; the host reads it as a signed number exactly from -2^26 up, and otherwise 2^32 too high |
| `Message.EncodeHostParam` | t1-pro/klipper/klippy/msgproto.py:74-80 | appends an integer, or a length byte and the bytes |
| `Message.EncodeHostMessage` | t1-pro/klipper/klippy/msgproto.py:173-178 | the identifier and then each parameter's bytes in order |
| `Message.ParseHostMessage` | t1-pro/klipper/klippy/msgproto.py:185-191 | the loop reads each parameter where the one before ended |
| `Message.HostParamMeans` | t1-pro/klipper/klippy/msgproto.py:50-116 | what is read of a parameter is a complete integer, or a length byte and the bytes it announces as far as there are any; nothing exactly if the integer is incomplete or the length byte missing |
| `Message.HostParamPositions` | t1-pro/klipper/klippy/msgproto.py:185-191 | parameters are read one right after the other, and reading fails exactly at the first that is missing |
| `Message.ParseBlock` | t1-pro/klipper/klippy/msgproto.py:286-293 | a block holds exactly one known message ending at the trailer, or the result says what is wrong |
| `Message.HostMessageRoundTrip` | t1-pro/klipper/klippy/msgproto.py:173-191 | a host message is read back wherever it stands and whatever follows, consuming exactly its bytes; unchanged just when each integer is in its type's range |
| `Message.EncodeFirmwareParam` | t1-pro/klipper/src/command.c:128-164 | an integer, or a length byte and as many bytes as are sent |
| `Message.SendsWhatFits` | t1-pro/klipper/src/command.c:144-164 | as much of a string or buffer is sent as there is room for |
| `Message.PartPositions` | t1-pro/klipper/src/command.c:122-126 | parameters are written one right after the other, and it is an error exactly if one would start after the end |
| `Message.EncodeResponse` | t1-pro/klipper/src/command.c:110-172 | the parameters one after the other; an error if one would start after the end |
| `Message.EndsInTimeIff` | t1-pro/klipper/src/command.c:144-164 | a buffer ends within the message exactly if it has fewer bytes than there is room for, and a string if there is room at all; otherwise it ends one byte too far |
| `Message.ResponseRoundTrip` | t1-pro/klipper/src/command.c:110-172 | the host reads a response back consuming exactly its bytes: unsigned words as they are, signed ones from -2^26 up, strings and buffers as far as they were sent |
| `Message.ParseArgs` | t1-pro/klipper/src/command.c:72-108 | the loop decodes each argument where the one before ended, or reports an error |
| `Message.ArgMeans` | t1-pro/klipper/src/command.c:72-108 | an argument is an error exactly if it starts after the end, is of a type no command has or is a buffer that does not end in time; otherwise it is an integer modulo 2^32 or the bytes |
| `Message.ArgPositions` | t1-pro/klipper/src/command.c:79-104 | arguments are decoded one right after the other, and are in error exactly if one of them is |
| `Message.Dispatch` | t1-pro/klipper/src/command.c:305-324 | handles the block's commands in order, up to the first bad command or argument, and while the machine is shut down only those that may run then |
| `Message.CallPositions` | t1-pro/klipper/src/command.c:307-315 | commands are decoded one right after the other, up to the trailer, the first identifier no command has or the first arguments in error |
| `Message.HandledPositions` | t1-pro/klipper/src/command.c:316-322 | exactly the commands decoded while the machine is running, and those that may run in shutdown, are handled, in order |
| `Message.DownHandles` | t1-pro/klipper/src/command.c:316-319 | with the machine down throughout exactly the commands that may run then are handled |
| `Message.AllHandled` | t1-pro/klipper/src/command.c:316-322 | unless the machine is shut down every command decoded is handled |
| `Message.BlockStaysInside` | t1-pro/klipper/src/command.c:305-324 | whatever bytes a block holds, with a sync byte at its end the decoder never reads beyond it |
| `Message.BlockRoundTrip` | t1-pro/klipper/src/command.c:305-324 | commands the host encodes one after the other are decoded as exactly those, in order, with integers modulo 2^32 |
| `Crc.StepDivides` | t1-pro/klipper/src/generic/crc16_ccitt.c:15-19 | both shift-and-xor steps are bit-serial division of a byte by the reflected polynomial 0x8408 (Appendix C.2 of RFC 1662, without the final complement) |
| `Crc.HostCrc` | t1-pro/klipper/klippy/msgproto.py:29-37 | the host's loop computes the bit-serial checksum from 0xffff of every message |
| `Crc.HeaderChecksum` | t1-pro/klipper/klippy/msgproto.py:29-37 | the checksum of the bytes 5 and 16 is 0x9e81 |
| `Crc.FirmwareCrc` | t1-pro/klipper/src/generic/crc16_ccitt.c:10-22 | the firmware's loop computes the same checksum |
| `Crc.BytesDetermine` | t1-pro/klipper/klippy/msgproto.py:36-36 | the two bytes sent determine the checksum |
| `Crc.DifferentByte` | t1-pro/klipper/klippy/msgproto.py:31-35 | from equal registers different bytes lead to different registers |
| `Crc.DifferentStart` | t1-pro/klipper/klippy/msgproto.py:31-35 | different registers stay different over equal bytes |
| `Crc.OneByteChange` | t1-pro/klipper/klippy/msgproto.py:29-37 | messages of one length that differ in one byte have different checksums |
| `Frame.AddFrame` | t1-pro/klipper/src/command.c:174-184 | puts header and trailer around the body in place, and leaves the rest of the buffer alone |
| `Frame.AcceptsEncodedIff` | t1-pro/klipper/klippy/msgproto.py:245-264 | a block is recognised, whatever follows it, exactly if its body has at most 59 bytes, and rejected if longer |
| `Frame.EncodedIsRead` | t1-pro/klipper/klippy/msgproto.py:294-301 | what the host encodes is recognised, with its number modulo 16 and its commands, exactly for at most 59 bytes of commands; from 251 bytes on encoding is an error |
| `Frame.WaitsForEncoded` | t1-pro/klipper/klippy/msgproto.py:246-256 | a block that has not arrived in full is waited for |
| `Frame.DecisionStands` | t1-pro/klipper/klippy/msgproto.py:245-264 | once a prefix is accepted or rejected, later bytes do not change that |
| `Frame.AcceptedIsFrame` | t1-pro/klipper/klippy/msgproto.py:245-264 | only blocks of the encoder's form are accepted |
| `Frame.RejectsIff` | t1-pro/klipper/klippy/msgproto.py:245-264 | bytes are rejected exactly if their header cannot be that of a block or all its bytes are there and are not what the encoder writes |
| `Frame.EmptyBlock` | t1-pro/klipper/src/command.c:174-184 | the empty block with the first sequence number, byte by byte |
| `Frame.RejectsOneByteChange` | t1-pro/klipper/klippy/msgproto.py:245-264 | a block with exactly one byte other than the length byte changed is always rejected |
| `Frame.LongerLengthWaits` | t1-pro/klipper/klippy/msgproto.py:248-256 | a raised length byte within the allowed range goes unnoticed until that many bytes have come |
| `BlockFinder.FindProgress` | t1-pro/klipper/src/command.c:244-303 | every look that does not wait takes at least one byte and at most the buffer; out of step, or without a valid block, nothing beyond the first sync byte; out of step implies that an error was reported |
| `BlockFinder.LostBlockNaks` | t1-pro/klipper/src/command.c:268-274 | a valid block that is not the one due is dropped with exactly one nak, and the finder stays in step with the same number due |
| `BlockFinder.ErrorNaks` | t1-pro/klipper/src/command.c:280-302 | the first error since a valid block sends exactly one nak, further ones none; a stray sync byte is dropped without one |
| `BlockFinder.SearchingIsQuiet` | t1-pro/klipper/src/command.c:288-302 | out of step nothing is sent, and bytes are dropped through the next sync byte |
| `BlockFinder.NoiseNaksOnce` | t1-pro/klipper/src/command.c:244-303 | a run over any bytes without a valid block sends one nak at its first error since a valid block, and no other |
| `BlockFinder.BlockFinder.constructor` | t1-pro/klipper/src/command.c:16-16 | the finder starts in step, expecting the first sequence number |
| `BlockFinder.BlockFinder.Check` | t1-pro/klipper/src/command.c:251-267 | the firmware's tests accept, reject and wait exactly like the host's |
| `BlockFinder.BlockFinder.Discard` | t1-pro/klipper/src/command.c:288-302 | skips through the first sync byte, or everything; one nak per loss of sync |
| `BlockFinder.BlockFinder.FindBlock` | t1-pro/klipper/src/command.c:244-303 | the state, the bytes taken, the blocks accepted and the naks sent are those of the specification |
| `BlockFinder.FindStands` | t1-pro/klipper/src/command.c:244-303 | a look that finds what it needs does the same when more bytes are there |
| `BlockFinder.RunSkips` | t1-pro/klipper/src/command.c:288-302 | skipping what is there and then more is the same as skipping all of it at once, with one nak |
| `BlockFinder.RunInTwo` | t1-pro/klipper/src/command.c:244-303 | looking at some bytes first and then at what is left with the rest sees and sends the same |
| `BlockFinder.OneLook` | t1-pro/klipper/src/command.c:244-303 | one look at some of the bytes, and a run over what it leaves together with the bytes that follow, see and send the same as a run over all |
| `BlockFinder.AnySchedule` | t1-pro/klipper/src/command.c:333-344 | whenever the looks happen, each shown any number of the bytes not finished with, accepted blocks, naks and final state are those of one run over the whole stream, together with a run over what the looks leave |
| `BlockFinder.ScheduleCompletes` | t1-pro/klipper/src/command.c:333-344 | looks that go on until one would wait with all bytes before it come to exactly what a run comes to |
| `BlockFinder.FullBufferDecides` | t1-pro/klipper/src/linux/console.c:152-164 | a look shown 64 bytes never waits for more |
| `BlockFinder.WatchStream` | t1-pro/klipper/src/generic/serial_irq.c:73-87 | a console task that looks once each time it is woken sees and sends what a run over the whole stream does |
| `BlockFinder.ChunksDoNotMatter` | t1-pro/klipper/src/command.c:244-303 | for any byte stream and any split into reads that are each looked at until the finder waits, accepted blocks, naks, final state and left-over bytes are the same |
| `BlockFinder.AcceptedInSequence` | t1-pro/klipper/src/command.c:270-276 | in any run the accepted blocks carry consecutive sequence numbers modulo 16 |
| `BlockFinder.StreamIsDispatched` | t1-pro/klipper/src/command.c:244-276 | a finder in step accepts every block of a sender that numbers on, with no nak, whatever follows |
| `BlockFinder.Resynchronises` | t1-pro/klipper/src/command.c:288-303 | out of step, the block after the next sync byte is accepted, and nothing is sent for the noise before it |
| `Wire.BlockDelivers` | t1-pro/klipper/src/command.c:305-324 | the commands the host packs into a block are exactly those the firmware decodes from it |
| `Wire.AllDelivered` | t1-pro/klipper/src/command.c:305-324 | and with the machine running exactly those it handles |
| `Wire.AcceptedStaysInside` | t1-pro/klipper/src/command.c:305-324 | dispatching an accepted block never reads outside it |
| `Wire.FindAndDispatch` | t1-pro/klipper/src/command.c:333-344 | dispatches and acknowledges exactly the accepted blocks |
| `Clock.OneWrapCounts` | t1-pro/klipper/src/basecmd.c:293-299 | adding one when the low word went down accounts for all of the time passed but the whole ranges of the counter in it |
| `Clock.Uptime.constructor` | t1-pro/klipper/src/basecmd.c:290-290 | the clock starts at zero |
| `Clock.Uptime.StatsUpdate` | t1-pro/klipper/src/basecmd.c:305-332 | whatever the time between calls, reports exactly when the low words say so, keeps the true clock of the last report, and misses exactly the whole ranges of the counter gone by; with calls less than 2^31 ticks apart it misses none and reports every five seconds |
| `Clock.Uptime.GetUptime` | t1-pro/klipper/src/basecmd.c:293-299 | the uptime is the true 64-bit clock exactly if no range of the counter has been missed, before the last report or since; so always with calls less than 2^31 ticks apart |
| `Clock.ClockSync.constructor` | t1-pro/klipper/klippy/clocksync.py:34-35 | the host starts from the firmware's 64-bit uptime |
| `Clock.ClockSync.HandleClock` | t1-pro/klipper/klippy/clocksync.py:65-72 | the host's clock becomes the true clock exactly if that is 0 to 2^32 - 1 ticks after the clock it had, and never goes back |
| `Clock.ClockSync.HandleClocks` | t1-pro/klipper/klippy/clocksync.py:65-72 | in a run of samples less than 2^32 ticks apart every one is exact |
| `Clock.ClockSync.RecoversIff` | t1-pro/klipper/klippy/clocksync.py:139-144 | a 32-bit clock is extended to the true clock t exactly if last - 2^31 < t <= last + 2^31 |
| `FlushHorizon.ForwardOrder` | t1-pro/klipper/klippy/toolhead.py:317-333 | over a whole run no flush passes on an earlier time than any before it, and freed and flushed times never exceed the generated one |
| `FlushHorizon.HorizonIsLatest` | t1-pro/klipper/klippy/toolhead.py:321-331 | the times passed on are the latest that keep a scan delay from the print time to the steps and on to the moves freed, and the flush delay to what is flushed |
| `FlushHorizon.HorizonRaised` | t1-pro/klipper/klippy/toolhead.py:374-385 | raising the flush time to cover what has been generated moves no time back |
| `FlushHorizon.HorizonSettled` | t1-pro/klipper/klippy/toolhead.py:561-569 | after a flush another scan delay, longer or shorter, moves no time back |
| `FlushHorizon.ToolHead.constructor` | t1-pro/klipper/klippy/toolhead.py:222-242 | all times start at zero, in the flushed state |
| `FlushHorizon.ToolHead.UpdateMoveTime` | t1-pro/klipper/klippy/toolhead.py:317-333 | the batching loop ends at the given time; every flush on the way is for at most a batch more, passes on exactly the times of its print time, and goes forward |
| `FlushHorizon.ToolHead.CalcPrintTime` | t1-pro/klipper/klippy/toolhead.py:334-343 | the print time only goes forward, to a scan delay beyond the flush time and ahead of the clock |
| `FlushHorizon.ToolHead.AppendMoves` | t1-pro/klipper/klippy/toolhead.py:353-368 | moves are queued without gap or overlap, and none at a time a step generator has looked at |
| `FlushHorizon.ToolHead.UpdateDripMoveTime` | t1-pro/klipper/klippy/toolhead.py:485-499 | each look moves the print time on by exactly a segment or to the end, unless homing is over or it is too far ahead of the clock; enough looks none of which is early complete the move, and steps stay only a short time ahead of the clocks looked at |
| `FlushHorizon.ToolHead.ProcessMoves` | t1-pro/klipper/klippy/toolhead.py:344-373 | hands over the moves and keeps every time going forward, in every queuing state; fixes when the moves end; the last move time goes back exactly when the moves end before activity already noted |
| `FlushHorizon.ToolHead.FlushStepGeneration` | t1-pro/klipper/klippy/toolhead.py:374-385 | afterwards generated, freed and flushed times all equal the flush time, which covers the last movement and everything generated before; only moves pending while homing can keep it from completing |
| `FlushHorizon.ToolHead.CatchUp` | t1-pro/klipper/klippy/toolhead.py:377-385 | the flush time is raised to cover the last movement and everything generated, and all times catch up with it |
| `FlushHorizon.ToolHead.FlushLookahead` | t1-pro/klipper/klippy/toolhead.py:386-389 | the moves pending end where they should, and in a special state the flush time catches up; nothing goes back |
| `FlushHorizon.ToolHead.GetLastMoveTime` | t1-pro/klipper/klippy/toolhead.py:390-394 | the time returned is where the moves pending end, and in a special state ahead of the clock too |
| `FlushHorizon.ToolHead.Dwell` | t1-pro/klipper/klippy/toolhead.py:468-471 | the print time becomes the last move time and the delay, and nothing goes back |
| `FlushHorizon.ToolHead.CheckStall` | t1-pro/klipper/klippy/toolhead.py:397-407 | a special queuing state becomes the priming state |
| `FlushHorizon.ToolHead.DripMove` | t1-pro/klipper/klippy/toolhead.py:500-523 | a homing move, complete, ended early or still on its way, moves no time back; once over it leaves everything flushed; a complete one has been carried out from its start to its end |
| `FlushHorizon.ToolHead.NoteStepGenerationScanTime` | t1-pro/klipper/klippy/toolhead.py:561-569 | registers and removes exactly the given delays, uses the longest, and no time goes back when it changes |
| `FlushHorizon.ToolHead.NoteKinematicActivity` | t1-pro/klipper/klippy/toolhead.py:576-577 | the last move time is extended, and protection of the other times kept |
| `FlushHorizon.LastMoveTimeGoesBack` | t1-pro/klipper/klippy/toolhead.py:373-373 | an input for which the last move time goes back, from 10 to 1.25 |

## Left out

- Floating point, `sqrt` and the times of a move's phases: speeds are exact reals in squared velocity; durations are inputs of `FlushHorizon`.
- The trigonometry of a corner and the extruder's own limit: arbitrary non-negative inputs of `CalcJunction`.
- Foreign code (trapq, itersolve, stepcompress, serialqueue, trdispatch) and the boards' GPIO, interrupt and timer headers, which are not part of this model; `timer_is_before` is taken as the sign of the 32-bit difference.
- Preemption: an interrupt handler, and a region with interrupts disabled, is one step.
- The AVR step function and AVR assembly tweaks, which mean the same.
- Clock regression, variance filtering and `SecondarySync`: statistical code without a crisp guarantee.
- Enumerations, output formats and format strings of messages: parameters have their types given.
- Move nodes inside `Stepper` and `SoftPwm`: their queues are sequences there; the linked queues and the pool are `MovePool`. The commands' use of the pool is `MovePool.RunCommands`.
- The oid table, and configuration commands.
- The receive buffers of the serial drivers, which drop bytes when full, and the 8 bit counters of the block finder: positions are unbounded, and each look is given any number of the bytes there are.
- Reactor, webhooks, vendor g-code handlers, sensors, displays, scripts, and all of Moonraker.
- MoveQueue.Move.constructor: takes the length and kind of the move; how they follow from positions, and moves of no length, which are never queued, are not modelled.
- MoveQueue.Move.CalcJunction: does not compute the corner's radius and half-angle tangent, which are inputs.
- MoveQueue.Move.SetJunction: does not compute velocities and times, which need square roots.
- MoveQueue.MoveQueue.Flush: what the hand-over does with the moves is in `FlushHorizon`; an exception out of it, as a homing move ends with, is followed by a reset there.
- TimerList.Scheduler.AddTimer: requires a wake time less than 2^31 ticks from that of every timer on the list, the dummy at its head included, without which wrapped times do not decide the order; `TimerList.SearchStops` needs no such assumption.
- TimerList.Scheduler.Dispatch: the callback may delete other timers but not add one or delete itself; the callback's wake time is required to be as near as for adding.
- TimerList.Scheduler.PeriodicEvent: does not model the wake-up of tasks.
- Stepper.Stepper.EventFull: the time of the event is an input, and the shutdown it may end in is only an outcome.
- TriggerSync.TriggerSync.AddSignal: the callback is always the stepper's stop function, never null; distinct signals belong to distinct steppers.
- TriggerSync.TriggerSync.SetTimeout: the timers are only scheduled or not; their place in the list is `TimerList`.
- MovePool.Pool.MoveReset: a pool without nodes is required to have an empty free list, as it does from the start.
- SoftPwm.LeftAlone: requires pulses and pauses of at most 2^31 ticks, without which the pin can step over its end (`SoftPwm.DigitalOut.ToggleEvent`).
- SoftPwm.DigitalOut.QueueDigitalOut: how the timer list takes a wake time already past is not modelled; such an update is due at that time.
- MovePool.Pool.QueueStep: whether the stepper is active or waiting for a reset is an input; the contents of moves are in `Stepper`.
- MovePool.Carry: whether an update is beyond its limit is an input; `SoftPwm` decides it.
- Clock.Uptime.StatsUpdate: the count and the sums that the report carries are not modelled.
- TmcUart.Uart.SendEvent: toggles are taken to be made at the timer's wake time; pull-up and pin direction are not modelled.
- TmcUart.Uart.SendSyncEvent: when the drift is so large that the next toggle would be due before the last, nothing is promised about the waveform.
- Message.Dispatch: what handlers do is not modelled; whether the machine is shut down at each command is an input.
- Message.EncodeResponse: the acknowledgement, which has no parameters, is only its frame.
- Message.ParseHostMessage: parameters are a sequence, not a dictionary by name.
- Wire.FindAndDispatch: a handler that shuts the machine down in the middle of a block is not modelled.
- FlushHorizon.ToolHead.UpdateDripMoveTime: takes a finite number of looks; when they are used up the result says that the loop is still waiting.
- FlushHorizon.ToolHead.DripMove: when homing ends the move early, all moves are dropped from the trapezoid queue, at a time beyond any print time; that call is not one of the flushes logged. A move that the kinematics refuse is not modelled.
- FlushHorizon.ToolHead.CheckStall: does not model the stall loop, which only waits.
