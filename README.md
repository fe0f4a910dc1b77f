# MI-MAC simulation engine in Dafny

This project models the discrete-event engine of a simulator of medium access
control for magneto-inductive wireless sensor networks (`mi_mac_sim.py`). The
model covers these parts:

- **Configuration table.** The three coil configurations are sequential
  (`config1`), simultaneous (`config2`) and hybrid (any other name). Each one
  selects the wake-up, acknowledgement and data durations and currents.
- **Arrival generator (`schedule_attempts`).** Each node runs a renewal
  process of attempt times that stops at the first time at or past the
  horizon, and picks a random peer for every retained time. All attempts are
  then sorted by time. The random draws are inputs: for every node, a
  sequence of `Draw(gap, pick)`. `gap` is the exponential inter-arrival gap.
  `pick` is the index `random.choice` takes in the list of the other nodes.
- **Collision detector.** A new wake-up is scanned against every earlier
  ledger entry. It collides when one of them is a wake-up to the same target
  whose half-open interval overlaps its own.
- **Protocol walker and accumulator (`run_simulation`).** Each attempt goes
  through sense, wake-up, collision check, acknowledgement and data. Energy
  is charged to the sender and the target. Bytes sent and delivered are
  credited to the sender. Every attempt is counted. After the last attempt,
  every node is charged the idle baseline.

Modules:

- `Params` holds the constants.
- `Configs` is the configuration table.
- `Ledger` holds transmissions and the collision scan.
- `Scheduler` is the arrival generator.
- `Engine` holds the pure specification of a run (`Step`, `Run`, `Finish`,
  `Outcome`) and the `Simulator` class. The class updates the energy and
  byte arrays in place and appends to the ledger. It is proved against
  `Step`. `Simulate` is the driver loop.
- `EngineProperties` holds the lemmas about runs.
- `Simulation.RunSimulation` is the whole run for a configuration name. It
  uses N = 10 nodes and a 200 ms horizon, like the source.
- `Scenarios` works two concrete streams end to end.

Where the prose description of the system and the code disagree, the model
follows the code:

- The hybrid configuration drives its 3 ms wake-up at the high transmit
  current (`mi_mac_sim.py:85`). It is not a low-current wake-up.
- Fewer than two nodes is not rejected before the run. It fails only when a
  node's first retained attempt tries to choose a peer from an empty list
  (`mi_mac_sim.py:54`). The model returns `NoPeer` at that point.

## Model

| member | source | states |
|---|---|---|
| Params.Energy | mi_mac_sim.py:76-77 | the energy of a phase is non-negative for non-negative current and duration, and positive when both are positive |
| Configs.ConfigOf | mi_mac_sim.py:80-85 | config1 selects sequential, config2 simultaneous, and every other name hybrid |
| Configs.WakeDuration | mi_mac_sim.py:80-85 | the wake-up is positive and is the short burst exactly under the simultaneous configuration |
| Configs.WakeCurrent | mi_mac_sim.py:80-85 | the wake-up is driven at low current exactly under the sequential configuration, otherwise at high current |
| Configs.AckCurrent | mi_mac_sim.py:109-112 | the acknowledgement is driven at high current exactly under the simultaneous configuration, otherwise at low current |
| Configs.DataDuration | mi_mac_sim.py:122-127 | the data payload is positive and is stretched beyond 3 ms exactly under the sequential configuration |
| Configs.DataCurrent | mi_mac_sim.py:122-127 | the data is driven at high current exactly under the simultaneous configuration, otherwise at low current |
| Ledger.ScanForCollision | mi_mac_sim.py:93-98 | the scan with early break reports a collision iff some earlier entry is a wake-up to the same target whose interval overlaps the new one |
| Ledger.OverlapsIff | mi_mac_sim.py:96 | the negated-disjointness test is strict interval intersection and is symmetric |
| Ledger.SelfWouldCollide | mi_mac_sim.py:94 | a wake-up of positive length overlaps itself, so the just-appended entry must be left out of the scan |
| Ledger.CollidesAppend | mi_mac_sim.py:93-98 | a collision with a concatenated ledger is a collision with one of its parts |
| Ledger.NonWakeIgnored | mi_mac_sim.py:95 | appending acknowledgement and data entries never changes whether a later wake-up collides |
| Scheduler.Peers | mi_mac_sim.py:54 | the peer list has n - 1 entries for a node in range, and its k-th entry is k below the node and k + 1 above it, so it never holds the node itself |
| Scheduler.Train | mi_mac_sim.py:47-55 | one node's attempts come from that node, target a peer in range, have times between the start and the horizon, and are in time order |
| Scheduler.Generated | mi_mac_sim.py:47-55 | every generated attempt has its node and target in range and distinct, and a time in [0, horizon) |
| Scheduler.TrainTimes | mi_mac_sim.py:48-53 | the k-th retained time is the sum of the first k + 1 gaps, and the first draw not retained overshoots the horizon |
| Scheduler.InsertByTime | mi_mac_sim.py:56 | inserting into a time-sorted list keeps it sorted and adds exactly that attempt |
| Scheduler.SortByTime | mi_mac_sim.py:56 | the result is sorted by time and is a permutation of the input |
| Scheduler.ScheduleAttempts | mi_mac_sim.py:44-57 | the nested renewal loops return the sorted merge of every node's train, or NoPeer when a peer must be chosen from an empty list |
| Scheduler.ScheduleWellFormed | mi_mac_sim.py:47-56 | the generated stream is sorted by time, every attempt's node and target are in range and distinct, and every time lies in [0, horizon) |
| Scheduler.ScheduleFails | mi_mac_sim.py:54 | generation fails exactly when there is one node and its first draw lands inside the horizon |
| Engine.Simulator.constructor | mi_mac_sim.py:62-66 | a run starts with zero energy and byte totals, an empty ledger and no attempts processed |
| Engine.Simulator.ProcessAttempt | mi_mac_sim.py:68-136 | walking one attempt in place turns the arrays, ledger and counter into the state Step specifies |
| Engine.Simulator.CompleteExchange | mi_mac_sim.py:106-136 | after a clean wake-up, the target's receive and acknowledgement charges, the sender's receive and data charges, the acknowledgement and data entries, and the sender's 46 bytes sent and 24 delivered are recorded |
| Engine.Simulator.AddIdleBaseline | mi_mac_sim.py:139-140 | every node's energy grows by the idle current over the whole horizon, and nothing else changes |
| Engine.Simulate | mi_mac_sim.py:62-149 | the driver loop, the baseline and the throughput sum return exactly the specified run result |
| EngineProperties.ExchangeTiming | mi_mac_sim.py:75-130 | the wake-up starts 0.5 ms after the attempt and lasts 1 ms (simultaneous) or 3 ms; the acknowledgement follows 0.1 ms later and lasts 0.7 ms; the data follows 0.05 ms later and lasts 9 ms (sequential) or 3 ms; every entry has positive length, and senders and targets are as the protocol says |
| EngineProperties.StepCollided | mi_mac_sim.py:100-104 | a collided attempt adds only its wake-up to the ledger, adds 13 bytes sent to the sender, leaves bytes delivered unchanged, counts once, charges the sender the idle-current timeout, and charges the target no wake-up reception |
| EngineProperties.StepCompleted | mi_mac_sim.py:106-136 | a completed attempt appends wake-up, acknowledgement and data in order, adds 46 bytes sent and 24 delivered to the sender only, counts once, and charges each side its phases |
| EngineProperties.ChargesPositive | mi_mac_sim.py:76-133 | every attempt charges both the sender and the target a positive energy, on either path |
| EngineProperties.StepConsistent | mi_mac_sim.py:68-136 | one attempt keeps 0 <= delivered <= sent, non-negative energy and positive-length entries, and never decreases any total |
| EngineProperties.RunConsistent | mi_mac_sim.py:68-136 | every state of a run satisfies that invariant |
| EngineProperties.RunGrows | mi_mac_sim.py:68-136 | energy, bytes sent, bytes delivered, the counter and the ledger only grow as the attempts are walked |
| EngineProperties.AttemptsCounted | mi_mac_sim.py:66-136 | after a run the counter equals the number of attempts |
| EngineProperties.StepBytes | mi_mac_sim.py:100-135 | one attempt adds 13 bytes sent to the sender on collision, and 46 sent and 24 delivered otherwise |
| EngineProperties.ByteTotals | mi_mac_sim.py:102-135 | the delivered bytes of all nodes sum to 24 per completed attempt; the sent bytes sum to 13 per collided and 46 per completed attempt |
| EngineProperties.UntouchedStaysZero | mi_mac_sim.py:68-136 | a node that is neither sender nor target of any attempt keeps zero energy and bytes through the walk |
| EngineProperties.RunReport | mi_mac_sim.py:139-149 | the result counts every attempt; its total throughput is the sum of the delivered column and equals 24 per completed attempt; delivered is within sent; every node's energy is at least the idle baseline, and exactly the baseline for a node in no attempt |
| EngineProperties.NoTraffic | mi_mac_sim.py:62-149 | with no attempts, nothing is sent or delivered and every node's energy is exactly the idle baseline |
| EngineProperties.WakeEntries | mi_mac_sim.py:88 | the wake-ups in the ledger are exactly the wake-ups of the attempts walked so far, collided or not |
| EngineProperties.WakesOverlap | mi_mac_sim.py:87-96 | two wake-ups of one configuration overlap iff their attempts lie less than one wake-up length apart |
| EngineProperties.CollisionIffNearby | mi_mac_sim.py:87-98 | a wake-up collides iff some attempt already walked, to the same target, lies less than one wake-up length away in time |
| EngineProperties.CollisionIffRecent | mi_mac_sim.py:56-98 | in a time-sorted stream, an attempt collides iff an earlier attempt to the same target started less than one wake-up length before it |
| Simulation.RunSimulation | mi_mac_sim.py:60-61 | a named run over 10 nodes and 200 ms always schedules successfully, in range, and returns the specified result of the configuration the name selects |
| Scenarios.SingleAttempt | mi_mac_sim.py:68-136 | one sequential attempt from node 0 to node 1 completes, and its 46 sent and 24 delivered bytes go to the sender |
| Scenarios.ForcedCollision | mi_mac_sim.py:68-136 | of two sequential attempts to one target 1 ms apart, the later collides: it sends 13 bytes and delivers none |

## Left out

- The random number generators (`mi_mac_sim.py:50`, `mi_mac_sim.py:54`) are replaced by injected draws. The model assumes the draws are what those generators can return: non-negative gaps, picks below n - 1, and in every stream enough gaps to pass the horizon. The arrival rate `lambda_rate` only parameterises the exponential generator, so it does not appear. Distributional properties cannot be stated.
- Floating-point arithmetic. Energies and times are exact reals, so rounding and the order in which the source adds up the charges are not modelled. Only non-negativity, growth and the idle baseline are stated about energy.
- The byte counters are float arrays in the source. They hold small whole numbers exactly and are modelled as integers.
- SortByTime: stability is not stated, only sortedness and permutation. The definition is a stable insertion sort, like Python's sort.
- The pandas table and its `describe` report, the module-level loop over configurations, the printing and the plotting (`mi_mac_sim.py:142-147`, `mi_mac_sim.py:151-184`) are reporting only. The table is modelled as the per-node sequences of `RunResult`, and its column sum as `Sum`.
- Python's negative indices are not modelled: node numbers are natural numbers, and the engine requires them to be below the node count. The generator always produces them in that range.
