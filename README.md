# rltoolbox in Dafny

This project models the core of rltoolbox, a small Python library of tabular
reinforcement-learning algorithms, and proves properties of the model. It covers:

- **State approximation.** The table approximator counts the cut-points an observation
  has reached and encodes the bucket indices row-major. The CMAC approximator builds
  offset tilings from equally spaced cut-points. The fuzzy approximator builds
  triangular and trapezoidal membership functions from cut-points and grades
  observations with them. It relies on the sliding-window generator of `misc.py`.
- **Environments.** The grid world moves an agent around walls and borders. The
  continuous environments (ball on a beam, mountain car, cart-pole) have reward and
  absorbing-state predicates and clamping setters. The `Environment` bookkeeping covers
  `done`, `clear`, `do_action`, `get_state`, `states` and `approximate_with`.
- **Learning control.** This includes the `Algorithm` driver (`name`, `get_action`,
  `is_learned`, `learn`) and the compatibility setters of the three algorithm families.
  It also includes the episodes of the twelve algorithms:
  - tabular AHC, Q, SARSA and R-learning;
  - their CMAC versions, which keep one table per tiling layer;
  - fuzzy Q, SARSA and R-learning over products of membership grades.

Modules follow the source's files:

- `Wrappers` holds the exceptions as a `Result`.
- `ExtReals` holds the reals with ±inf.
- The other modules mirror the source files: `Misc`, `Fuzzy`, `Approximators`, `Models`,
  `Environments`, `Compatibility`, `Learning`, `Classic`, `Cmac`, `CmacAhc`, `CmacSarsa`,
  `CmacR`, `FuzzyLearning`, `FuzzyQ`, `FuzzySarsa` and `FuzzyR`.
- `Matrices` gives numpy's two-dimensional arrays (`array2<real>`) a value view `Rows`.
- `Learning` also holds the arg-max, choice and update functions the algorithms share.

Pure Python code is modelled as functions with lemmas. Code that updates objects in
place is modelled as classes whose methods say their whole new state:

- the grid model and the clamping setters;
- the environments;
- the algorithms, whose value, preference and trace tables are arrays updated in place.

Each algorithm's episode is a `while` loop. Its invariant ties the arrays to a pure
replay of the transitions seen so far. That replay is a left fold of one learning step
(`AhcStep`, `QStep`, `Cmac.QStep`, `FQStep`, ...), and the step's frame and value
properties are proved as lemmas.

Randomness and the environment's dynamics are passed in:

- A random choice is a `Draw(u, pick)`: `u` stands for `random()`, and `pick` selects
  from the list `choice` draws from.
- The physics of the continuous models is a function parameter `dynamics`.

## Model

| member | source | states |
|---|---|---|
| `ExtReals.LeTotalOrder` | fuzzy.py:18 | The comparison on reals extended with ±inf is a total order. The membership-function constructors compare corners with it. |
| `Misc.Windows` | misc.py:9-17 | The number of windows is len(s)-n+1 for 1 <= n <= len(s), none when len(s) < n, and len(s)+1 for width 0. |
| `Misc.WindowsAt` | misc.py:12-17 | For a positive width, the k-th window has length n and is the slice s[k..k+n]. |
| `Misc.WindowsSnoc` | misc.py:15-17 | A new element adds exactly one window, the one ending with it, once there are n elements. |
| `Misc.WindowsZeroSnoc` | misc.py:15-17 | With width 0, each element adds its 1-tuple, because `()[1:]` is `()`. |
| `Misc.Window` | misc.py:9-17 | The generator run to exhaustion yields exactly `Windows(s, n)`: it takes the first n elements, yields them when there were n, and then shifts each later element in. |
| `Misc.WindowAdvance` | misc.py:13-17 | One turn of the generator shifts the next element in, giving the window that ends there, which is the one the longer prefix adds. |
| `Fuzzy.NewTriangular` | fuzzy.py:17-23 | The constructor succeeds iff a <= b <= c, raising ValueError otherwise. It keeps the three corners. |
| `Fuzzy.NewTrapezoidal` | fuzzy.py:47-53 | The constructor succeeds iff a <= b <= c <= d, raising ValueError otherwise. It keeps the four corners. |
| `Fuzzy.RatioBounds` | fuzzy.py:28 | A quotient of a part by a positive whole lies in [0, 1], and it is 1 when the part is the whole. |
| `Fuzzy.Rise` | fuzzy.py:26-30 | The ramp (x-a)/(b-a) on [a, b] lies in [0, 1] and solves g*(b-a) == x-a, reaching 1 at b. |
| `Fuzzy.Fall` | fuzzy.py:31-35 | The ramp (c-x)/(c-b) on [b, c] lies in [0, 1] and solves g*(c-b) == c-x. |
| `Fuzzy.Grade` | fuzzy.py:25-36 | Every membership grade, triangular or trapezoidal, lies in [0, 1]. |
| `Fuzzy.ZeroOver` | fuzzy.py:28 | Zero over a nonzero width is zero, as at the corner of a ramp. |
| `Fuzzy.TriangularGradeValues` | fuzzy.py:25-36 | With finite corners: (x-a)/(b-a) on [a, b] and (c-x)/(c-b) on [b, c], but 0 for a zero-width segment, and 0 outside [a, c]. |
| `Fuzzy.TrapezoidalGradeValues` | fuzzy.py:55-68 | With finite corners: a rise on [a, b], then 1 on [b, c], then a fall on [c, d]. A degenerate segment gives 0, and so does anywhere outside [a, d]. |
| `Fuzzy.CreateMembershipFunction` | fuzzy.py:78-87 | A non-tuple raises TypeError. A 3-tuple builds a triangle and a 4-tuple a trapezoid, with the same corners. Any other length raises ValueError. |
| `Fuzzy.CreateMembershipFunctionAccepts` | fuzzy.py:78-87 | The factory accepts exactly the ordered 3-tuples and 4-tuples. |
| `Fuzzy.NewFuzzySet` | fuzzy.py:92-105 | The set is built iff every element is a membership function, raising TypeError otherwise. It keeps the elements in order. |
| `Fuzzy.FromMembershipFunctionsRanges` | fuzzy.py:107-113 | The set is built iff every range tuple builds a function. A failure is the first failing tuple's error. The result keeps the count and order of the tuples. |
| `Fuzzy.MembershipGrades` | fuzzy.py:115-118 | There is one grade per membership function, in order. Each grade is in [0, 1]. |
| `Approximators.ValidateRanges` | abstract.py:85-107 | The base setters accept iff n > 0 and there is exactly one list per variable. Anything else raises ValueError. |
| `Approximators.ApproximateStateVariable` | approximator.py:29-31 | The bucket of a value is at most the number of cut-points. |
| `Approximators.ApproximateStateVariableIsBucket` | approximator.py:29-31 | For sorted cut-points, the bucket k is the number of cut-points <= v. Every cut-point below k is <= v and every one from k up is > v. |
| `Approximators.ApproximateStateVariableMonotone` | approximator.py:29-31 | A larger value never falls in a lower bucket. |
| `Approximators.ApproximateStateVariableExamples` | approximator.py:29-31 | These are the recorded bucket values for empty, single and double cut-point lists. |
| `Approximators.ProductPositive` | approximator.py:17-19 | A shape of positive bounds has a positive product. |
| `Approximators.Unflatten` | approximator.py:43-48 | Mixed-radix digits of a code give one digit per dimension. |
| `Approximators.FlattenBounds` | approximator.py:43-48 | An in-shape index encodes into [0, product(shape)). |
| `Approximators.UnflattenFlatten` | approximator.py:43-48 | Decoding an encoded in-shape index returns it. |
| `Approximators.FlattenUnflatten` | approximator.py:43-48 | Every code below the product is the encoding of an in-shape index, so the encoding is onto. |
| `Approximators.UnflattenInShape` | approximator.py:43-48 | The mixed-radix digits of a code below the product are within the shape. |
| `Approximators.FlattenOfUnflatten` | approximator.py:43-48 | Encoding the digits of a code below the product gives the code back. |
| `Approximators.EncodeState` | approximator.py:33-48 | `encode_state` succeeds iff the lengths agree and every index is below its bound. Both errors are ValueError. The code is the row-major position `Flatten(idx, shape)`. An in-shape index encodes below the product of the shape, and `Unflatten` decodes the code back to the index. |
| `Approximators.EncodeStateExamples` | approximator.py:33-48 | The recorded values are 11, 7 and 85. The recorded errors are a length mismatch and an index at or above its bound. |
| `Approximators.NewTable` | approximator.py:11-19 | `TableApproximator(n, ranges)` succeeds exactly when the base validation does, and keeps n and the ranges. |
| `Approximators.StateShape` | approximator.py:14-16 | `state_shape[i]` is one more than the number of cut-points of variable i. Every bound is positive. |
| `Approximators.TablePossibleStates` | approximator.py:17-23 | `possible_states` is 0, 1, ..., product(state_shape)-1. |
| `Approximators.TableExamples` | approximator.py:11-23 | These are the recorded shapes, possible states and rejected constructor arguments. |
| `Approximators.BucketIndices` | approximator.py:51-55 | There is one bucket per zipped variable, and each is within its dimension of the shape. |
| `Approximators.TableApproximateStateInRange` | approximator.py:50-56 | `approximate_state` never hits the encoding's bound error. With enough variables, its result is the encoding of the buckets and lies in `possible_states`. A short observation raises ValueError. |
| `Approximators.TableApproximateStateExample` | approximator.py:50-56 | This is a recorded approximation of a two-variable observation. |
| `Approximators.OffsetLayer` | approximator.py:100-104 | An offset layer has one more cut-point than the input. |
| `Approximators.DividedRange` | approximator.py:87-105 | Fewer than 2 layers is a ValueError. With fewer than 2 points, all layers are copies of the input. With unequal gaps it is a ValueError. Otherwise layer 0 is the input and layer k is `OffsetLayer(r, n, k)`. |
| `Approximators.EqualGapsProgression` | approximator.py:92-96 | Equal gaps make the cut-points an arithmetic progression. |
| `Approximators.ShiftWithinGap` | approximator.py:97-98 | Layer k's offset k*d/n lies strictly inside one gap. |
| `Approximators.OffsetLayerAt` | approximator.py:100-104 | Point j of layer k is r[0]-d+k*d/n+j*d. |
| `Approximators.OffsetLayerInterleaves` | approximator.py:100-104 | An offset layer starts below r[0], each input cut-point r[j] lies strictly between points j and j+1 of the layer, and consecutive layer points are one gap apart, so the tilings interleave. |
| `Approximators.DividedRangeExamples` | approximator.py:87-105 | These are the recorded divisions and the recorded errors. |
| `Approximators.DivideVariableRangeByLayers` | approximator.py:87-105 | The appending loop returns exactly `DividedRange(r, n)`. |
| `Approximators.DivideAll` | approximator.py:111-114 | Every variable's range is divided; the first failure is raised. |
| `Approximators.GenerateLayersRanges` | approximator.py:110-119 | The result succeeds iff every range has fewer than 2 points or equal gaps. It has n layers of one range per variable, and `layers_ranges[i][v]` is layer i of variable v's division. |
| `Approximators.CmacApproximator.Layer` | approximator.py:66-69 | Each layer is a valid table approximator over that layer's ranges. |
| `Approximators.NewCmac` | approximator.py:61-80 | The base validation errors and n_layers < 2 raise ValueError. Construction succeeds iff the ranges are valid, n >= 2 and every range divides. The layers' ranges are then the transposed divisions. |
| `Approximators.CmacPossibleStates` | approximator.py:70-84 | There is one `possible_states` list per layer, each being that layer's table states. |
| `Approximators.CmacApproximateState` | approximator.py:107-108 | There is one state per layer, each the layer's table approximation and within its possible states. A short observation raises ValueError. |
| `Approximators.CmacExamples` | approximator.py:61-80 | These are the recorded constructor errors and the layers of a recorded CMAC. |
| `Approximators.MembershipFunctionsRanges` | approximator.py:163-193 | No cut-points give []. Otherwise there are len(svr)+1 tuples: a leading 4-tuple from -inf, triangles between, and a trailing 4-tuple to +inf. |
| `Approximators.MembershipFunctionsRangesExamples` | approximator.py:163-193 | These are the recorded tuples for one, two and three cut-points. |
| `Approximators.MfrPrefix` | approximator.py:172-185 | After i pairs the list holds the leading trapezoid and i triangles. |
| `Approximators.MfrPrefixStep` | approximator.py:172-185 | Each pair appends its triangle, after the leading trapezoid for the first pair. |
| `Approximators.MfrPrefixComplete` | approximator.py:186-192 | The trailing trapezoid after the last pair completes the result. |
| `Approximators.Svr2Mfr` | approximator.py:163-193 | The appending loop over the windows returns exactly `MembershipFunctionsRanges(svr)`. |
| `Approximators.DefaultFuzzySet` | approximator.py:127-131 | A generated default set can only fail with ValueError. |
| `Approximators.DefaultFuzzySetAccepted` | approximator.py:127-131 | A default set is built iff the cut-points do not decrease. |
| `Approximators.DefaultFuzzySetShape` | approximator.py:127-136 | A default set has len(svr)+1 functions (none for no cut-points), and none of them produces NaN. |
| `Approximators.TrianglePositive` | fuzzy.py:25-36 | A triangular function with finite corners grades every point strictly between a and c positively. |
| `Approximators.LeadingPlateau` | fuzzy.py:55-68 | A trapezoid open to -inf grades 1 up to its third corner. |
| `Approximators.TrailingPositive` | fuzzy.py:55-68 | A trapezoid open to +inf grades every point past its first corner positively. |
| `Approximators.DefaultFunctionAt` | approximator.py:127-131 | Function i of a default set is the triangle or trapezoid built from the i-th tuple of `svr2mfr`. |
| `Approximators.SomeTriangleHolds` | approximator.py:172-185 | Between the first triangle's left corner and the last triangle's peak, every point lies strictly inside some triangle's base, equal cut-points included. |
| `Approximators.CoversSingle` | approximator.py:169-170 | With one cut-point c, the first trapezoid grades x <= c positively and the second grades the rest. |
| `Approximators.CoversLeft` | approximator.py:174-180 | Up to the first triangle's left corner, the leading trapezoid grades 1. |
| `Approximators.CoversRight` | approximator.py:186-192 | Past the last triangle's peak, the trailing trapezoid grades positively. |
| `Approximators.CoversTriangle` | approximator.py:181-185 | Inside the base of pair t's triangle, that triangle grades positively. |
| `Approximators.CoveringFunction` | approximator.py:164-193 | For non-decreasing cut-points, at least one of them, every number gets a positive grade from some function of the default set. |
| `Approximators.DefaultFuzzySets` | approximator.py:127-131 | One set per variable is built; the first failure is raised. |
| `Approximators.SetFuzzySets` | approximator.py:142-155 | A non-list raises TypeError. A wrong length raises ValueError. A non-FuzzySet element raises TypeError. Otherwise the value is stored. |
| `Approximators.FuzzyApproximator.StateShape` | approximator.py:134-136 | `state_shape` is the number of membership functions of each set. |
| `Approximators.NewFuzzy` | approximator.py:124-136 | The base validation runs first. Given sets go through the setter. Otherwise the default sets are generated from the ranges. |
| `Approximators.NewFuzzyFromRanges` | approximator.py:124-136 | Non-decreasing ranges build an approximator whose shape has one more function than cut-points per variable. |
| `Approximators.FuzzyApproximateState` | approximator.py:195-199 | There is one grade vector per observed variable, as `membership_grades`. Each grade is in [0, 1]. More variables than sets raise IndexError. |
| `Models.WallsMark` | environment/models.py:20 | `walls_mark or None`: a mark of 0 counts as no mark. |
| `Models.MovePossible` | environment/models.py:38-49 | A move outside the borders is impossible. Inside them, it is possible iff no walls mark is set or the cell is not a wall. |
| `Models.Target` | environment/models.py:68-76 | up is row-1, right is col+1, down is row+1, left is col-1. |
| `Models.NextPositionFacts` | environment/models.py:64-82 | From a legal position, a step moves to the target when that is possible and stays otherwise. The new position is legal. |
| `Models.Zeros` | environment/models.py:11 | A rows-by-cols grid of zeros is rectangular. |
| `Models.GridMoveExamples` | environment/models.py:64-82 | These are the recorded blocked moves at the borders and two recorded walks. |
| `Models.Grid.IsMovePossible` | environment/models.py:38-49 | `is_move_possible` on the model's grid and mark. |
| `Models.Grid.constructor` | environment/models.py:15-21 | The model keeps the grid and the normalised mark, and is reset: initial position, facing up, step 0. |
| `Models.Grid.SetAgentPosition` | environment/models.py:27-32 | A possible position is stored. An impossible one raises ValueError and leaves the position unchanged. |
| `Models.Grid.Reset` | environment/models.py:59-62 | The model returns to the initial position, facing up, at step 0. |
| `Models.Grid.Step` | environment/models.py:64-82 | A control not in `actions` is rejected with nothing changed. Otherwise the direction becomes the control, the position becomes `NextPosition` (so a blocked move stays), the step counter grows by one and the observation is returned. |
| `Models.NewGrid` | environment/models.py:15-21 | Construction raises ValueError iff the initial position is impossible. |
| `Models.Clamp` | environment/models.py:168-188 | The clamped value lies in [lo, hi]. It is the value itself inside the interval and the nearest bound outside it. |
| `Models.ClampIdempotent` | environment/models.py:168-188 | Clamping twice is clamping once, and no point of the interval is nearer the value. |
| `Models.MountainCar.constructor` | environment/models.py:219-223 | A reset car has its initial position and speed, each clamped. |
| `Models.MountainCar.SetCarSpeed` | environment/models.py:182-188 | The speed is clamped to [-0.07, 0.07] and the position is unchanged. |
| `Models.MountainCar.SetCarPosition` | environment/models.py:168-176 | The position is clamped to [-1.2, 0.5], and the speed is zeroed exactly when clamping happened. |
| `Models.CartPole.constructor` | environment/models.py:244-253 | `__init__` resets the model (lines 326-328). The initial position goes through the clamping setter onto the track. Then the initial speed is restored, even for a start at or beyond an end stop. |
| `Models.CartPole.SetCartPosition` | environment/models.py:260-268 | The position is clamped to ±track_length/2, and the speed is zeroed at or beyond either end. |
| `Environments.ActionAt` | abstract.py:201 | `actions[i]` follows Python indexing: negative indices count from the end, and anything else raises IndexError. |
| `Environments.MaxStepsOr` | abstract.py:150 | `max_steps or default`: a missing or zero ceiling gives the class default. |
| `Environments.CellStateIsEncoding` | environment/grid.py:37-39 | On a legal cell, `get_state` = row*ncols+col equals `encode_state([row, col], grid.shape)`. It lies in [0, grid.size), and decoding gives the cell back. |
| `Environments.CellOfState` | environment/grid.py:37-39 | The state index of a legal cell decodes back to that cell. |
| `Environments.MoveIsGridTransition` | environment/grid.py:29-42 | A grid move is a transition between valid state indices, with the reward of the cell reached. |
| `Environments.GridEnvironment.States` | environment/grid.py:33-35 | `states` is 0, 1, ..., grid.size-1. |
| `Environments.GridEnvironment.GetState` | environment/grid.py:37-39 | The state of a legal agent position is one of `states`. |
| `Environments.GridEnvironment.constructor` | environment/grid.py:22-27 | `max_steps` defaults to 1000 for a missing or zero argument. The model starts reset with an empty episode. |
| `Environments.GridEnvironment.Clear` | abstract.py:192-195 | `clear` resets the model and empties `steps`. |
| `Environments.GridEnvironment.DoAction` | abstract.py:200-205 | A bad index raises IndexError with nothing changed. Otherwise the model steps with the control, and the new state is appended to `steps` and returned. |
| `Environments.ContinuousActions` | environment/continuous.py:12-52 | Each environment has a non-empty class-level list of controls. |
| `Environments.DefaultRanges` | environment/continuous.py:14-59 | There is one default cut-point list per observed variable. |
| `Environments.Reward` | environment/continuous.py:20-66 | The reward is -1 (ball, pole) or +1 (mountain car) in an absorbing state, and 0 otherwise. |
| `Environments.AbsorbingExamples` | environment/continuous.py:26-69 | These are the recorded absorbing and non-absorbing observations of the three environments. |
| `Environments.GetState` | abstract.py:207-210 | Without an approximator the observation is the state. A table state is one of its possible states. A CMAC state has one code per layer, within that layer's possible states. A fuzzy state has one grade vector per variable. |
| `Environments.States` | abstract.py:175-181 | Without an approximator it raises AttributeError. A fuzzy approximator raises NotImplementedError. Otherwise it returns the approximator's possible states. |
| `Environments.BuildApproximator` | abstract.py:183-188 | The requested approximator is built from the observation length and the environment's ranges, with that constructor's errors. |
| `Environments.BuildApproximatorFits` | abstract.py:183-188 | A built approximator fits observations of the length it was built for. |
| `Environments.Environment.Actions` | environment/continuous.py:12-52 | These are the controls of the environment's kind. |
| `Environments.Environment.constructor` | abstract.py:146-153 | A missing or zero `max_steps` and missing or empty ranges fall back to the class defaults. There is no approximator, the state is the raw observation and the episode is empty. |
| `Environments.Environment.Clear` | abstract.py:192-195 | `clear` resets the observation, recomputes the state and empties `steps`. |
| `Environments.Environment.DoAction` | abstract.py:200-205 | A bad index raises IndexError with nothing changed. Otherwise the dynamics take the control, and the new state is computed, appended and returned. |
| `Environments.Environment.ApproximateWith` | abstract.py:183-190 | On success the approximator is stored and the state recomputed. On failure the constructor's error is raised and nothing changes. |
| `Compatibility.SetEnvironment` | algorithm/abstract.py:16-51 | Classic algorithms accept grids and table-approximated environments. CMAC and fuzzy algorithms accept only their own approximator. Everything else raises TypeError. |
| `Compatibility.SetEnvironmentExclusive` | algorithm/abstract.py:16-51 | Every environment suits at most one family. A continuous environment without an approximator suits none. |
| `Learning.Name` | abstract.py:32-36 | The class name gets "(lambda)" for lambd > 0 and "(0)" otherwise. |
| `Learning.NameSuffix` | abstract.py:32-36 | The name ends in "(lambda)" iff lambd > 0, and in "(0)" otherwise. |
| `Learning.GetAction` | abstract.py:38-42 | The result is always a valid action. Without exploration it is a greedy one, and with exploration the drawn one. |
| `Learning.Choose` | abstract.py:38-42 | Choosing on a value row gives a valid index, and without exploration an arg-max index. |
| `Learning.GetActionCovers` | abstract.py:38-42 | Every greedy action can be the greedy choice. With epsilon > 0, every action can be the exploratory choice. |
| `Learning.LastWindow` | abstract.py:64 | This is Python's slice `[-w:]`, including w == 0 (the whole record) and negative w. |
| `Learning.IsLearnedWindow` | abstract.py:58-65 | With fewer than w episodes it is false. Otherwise it holds iff each of the last w counts n satisfies gte <= n or n <= lte. |
| `Learning.IsLearnedExamplesShort` | abstract.py:58-65 | These are the recorded `is_learned` cases on a short record. |
| `Learning.IsLearnedExamplesLong` | abstract.py:58-65 | These are the recorded window-five and window-four cases on a long record. |
| `Learning.IsLearnedExamplesTight` | abstract.py:58-65 | This is the recorded window-three case. |
| `Learning.LearnProgressStep` | abstract.py:46-55 | One more episode that does not stop learning keeps the driver's progress invariant. |
| `Learning.LearnProgressOutcome` | abstract.py:44-56 | A driver that ran all its episodes appended exactly that many counts, and none stopped it early. |
| `Learning.LearnStopped` | abstract.py:54-55 | A driver stops right after the first episode at which `is_learned` holds. |
| `Learning.LearnOutcomeStopsAtWindow` | abstract.py:44-56 | With trivial thresholds and early stopping, learning from scratch stops after exactly w episodes. |
| `Learning.AllLengthsPass` | abstract.py:58-65 | With lte = gte = 0, `is_learned` only asks for w recorded episodes. |
| `Matrices.Rows` | algorithm/classic.py:13-14 | A table's value view has one row per array row and holds the array's entries. |
| `Matrices.Constant` | algorithm/classic.py:13-14 | `np.zeros` / `np.ones`: every entry of the given shape holds the constant. |
| `Matrices.Bump` | algorithm/classic.py:80 | `m[i, j] += d` changes that entry by d and no other. |
| `Matrices.AddScaled` | algorithm/classic.py:77 | `m += k * e` moves every entry by k times its trace. |
| `Matrices.Scaled` | algorithm/classic.py:78 | `e *= k` multiplies every entry. |
| `Matrices.AddScaledV` | algorithm/fuzzy.py:55 | `v + k * e` on a row moves every entry by k times its partner. |
| `Matrices.ScaledV` | algorithm/cmac.py:94 | `e[s, :] *= k` multiplies every entry of the row. |
| `Matrices.Max` | algorithm/classic.py:74 | `max()` bounds every entry and is one of them. |
| `Matrices.PositionsSound` | algorithm/classic.py:18 | Every index `np.where` finds holds the maximum. |
| `Matrices.PositionsComplete` | algorithm/classic.py:18 | Every index holding the maximum is found. |
| `Matrices.PositionsAscending` | algorithm/classic.py:18 | The indices come in ascending order. |
| `Matrices.PositionsOfConstant` | algorithm/classic.py:18 | On a constant row every index from k on is a position of the constant, in order. |
| `Matrices.ArgMaxIsGreedySet` | algorithm/classic.py:16-18 | The greedy set is non-empty and ascending. It holds exactly the indices whose value is the row maximum. |
| `Matrices.ArgMaxOfConstant` | algorithm/classic.py:16-18 | On a constant row (a fresh table) every action is greedy, in order. |
| `Matrices.ArgMaxOfUnique` | algorithm/classic.py:16-18 | A value strictly above all others is the only greedy action. |
| `Matrices.NewTable` | algorithm/classic.py:57 | A fresh table of the given shape is filled with the constant. |
| `Matrices.BumpInPlace` | algorithm/classic.py:80 | `A[i, j] += d` in place is `Bump` on the old contents. |
| `Matrices.AddScaledInPlace` | algorithm/classic.py:77 | `A += k * E` in place, entry by entry. |
| `Matrices.ScaleInPlace` | algorithm/classic.py:78 | `A *= k` in place, entry by entry. |
| `Matrices.AddScaledRowInPlace` | algorithm/cmac.py:93 | `A[i, :] += k * E[i, :]` changes row i only. |
| `Matrices.ScaleRowInPlace` | algorithm/cmac.py:94 | `A[i, :] *= k` changes row i only. |
| `Matrices.AddRowInPlace` | algorithm/fuzzy.py:55 | `A[i, :] += k * v` changes row i only. |
| `Matrices.AddScaledVInPlace` | algorithm/classic.py:38 | `V += k * E` on vectors, entry by entry. |
| `Matrices.ScaleVInPlace` | algorithm/classic.py:40 | `E *= k` on vectors, entry by entry. |
| `Matrices.RowOf` | algorithm/classic.py:74 | This reads a row of a table. |
| `Classic.TdUpdateEntry` | algorithm/classic.py:75-80 | Untraced, only Q[s, a] moves, by the step, and the traces stay. Traced, e[s, a] is bumped by 1, every entry moves by the step times its bumped trace, and every trace becomes its bumped value times the decay. |
| `Classic.TdUpdate` | algorithm/classic.py:75-80 | One table update keeps the shapes of the table and its traces. |
| `Classic.TracedFirstStepIsPlain` | algorithm/classic.py:75-80 | From all-zero traces, the first traced step moves the table exactly as the untraced step does. |
| `Classic.TracesAwayFromVisit` | algorithm/classic.py:75-78 | A zero trace away from the visited entry stays zero, and its entry does not move. |
| `Classic.QStepUpdates` | algorithm/classic.py:74-80 | A Q-learning step moves the entries by alpha * (r + gamma * max Q[s', :] - Q[s, a]), as `TdUpdateEntry` describes, with decay gamma * lambda, and traces iff lambda > 0. |
| `Classic.QStep` | algorithm/classic.py:74-80 | A Q-learning step keeps the shapes. |
| `Classic.QEpisode` | algorithm/classic.py:65-84 | Replaying Q-learning steps keeps the table shape. |
| `Classic.SarsaStepUpdates` | algorithm/classic.py:108-114 | A SARSA step is the same update with delta = r + gamma * Q[s', a'] - Q[s, a]. |
| `Classic.SarsaStep` | algorithm/classic.py:108-114 | A SARSA step keeps the shapes. |
| `Classic.SarsaEpisode` | algorithm/classic.py:101-120 | Replaying SARSA steps keeps the table shape. |
| `Classic.RhoUpdate` | algorithm/classic.py:152-154 | Rho changes only when the action is greedy at the inspected state. Then it moves by beta * (r - rho + max Q[s'] - max Q[s]), computed on the updated table. |
| `Classic.GreedyStateAsWritten` | algorithm/classic.py:60 | `s or self.environment.state`: state 0 is replaced by the environment's state. |
| `Classic.RTableStepUpdates` | algorithm/classic.py:145-151 | An R-learning step moves the entries by alpha * (r - rho + max Q[s'] - Q[s, a]), with traces decaying by lambda alone. |
| `Classic.RTableStep` | algorithm/classic.py:145-151 | The table part of an R-learning step keeps the shapes. |
| `Classic.RStepAt` | algorithm/classic.py:145-154 | The tables move as `RTableStep` says. Then rho moves as `RhoUpdate` says on the moved table. |
| `Classic.RStepAsWritten` | algorithm/classic.py:145-154 | As written, the greedy test reads s, except at state 0, where it reads s'. |
| `Classic.RStep` | algorithm/classic.py:145-154 | As intended, the greedy test reads s. |
| `Classic.REpisode` | algorithm/classic.py:136-157 | Replaying R-learning steps keeps the table shape. |
| `Classic.RStepAsWrittenMissesStateZero` | algorithm/classic.py:152 | From state 0, a greedy action at s that is not greedy at s' leaves rho at 0 in the as-written step. The intended step moves it to 0.5. |
| `Classic.TdUpdateVEntry` | algorithm/classic.py:34-43 | Untraced, only V[s] moves. Traced, e[s] is bumped, every V[i] moves by the step times its trace, and every trace decays. |
| `Classic.TdUpdateV` | algorithm/classic.py:34-43 | The critic update keeps the lengths of V and its traces. |
| `Classic.AhcStepValue` | algorithm/classic.py:34-43 | The critic V moves by alpha * (r + gamma * V[s'] - V[s]): only at s with lambda = 0, along the state traces with lambda > 0. |
| `Classic.AhcStep` | algorithm/classic.py:34-44 | An AHC step keeps the shapes of V, mi and both traces. |
| `Classic.AhcEpisode` | algorithm/classic.py:25-48 | Replaying AHC steps keeps the shapes. |
| `Classic.AhcStepPreference` | algorithm/classic.py:34-44 | The actor mi moves by beta * delta: only at (s, a) with lambda = 0, along the state-action traces with lambda > 0. Both trace kinds decay by gamma * lambda. |
| `Classic.TdUpdateInPlace` | algorithm/classic.py:75-80 | The array update of a table and its traces is `TdUpdate` on their old contents. |
| `Classic.TdUpdateVInPlace` | algorithm/classic.py:35-43 | The array update of V and its traces is `TdUpdateV` on their old contents. |
| `Classic.NextStates` | abstract.py:204 | An episode records one state per step. |
| `Classic.Zero` | algorithm/classic.py:64 | An all-zero table of the given shape, for fresh traces. |
| `Classic.QLearning.constructor` | algorithm/classic.py:53-57 | Q starts as zeros of shape states x actions, and no episode has been recorded. |
| `Classic.QLearning.GreedyActions` | algorithm/classic.py:59-61 | The greedy actions are exactly the ascending indices of the row maximum of Q[s, :]. The set is never empty. |
| `Classic.QLearning.Update` | algorithm/classic.py:74-80 | The tables after the in-place update are `QStep` of the old tables. |
| `Classic.QLearning.ActAndLearn` | algorithm/classic.py:69-80 | The action is the epsilon-greedy choice on the old Q[s, :]. A single `do_action` makes a grid transition and records s'. The reward is non-zero iff s' is absorbing. The tables learn `QStep`. |
| `Classic.QLearning.EpisodeStep` | algorithm/classic.py:65-84 | One pass of the loop extends the episode invariant by the step just taken. |
| `Classic.QLearning.StartEpisode` | algorithm/classic.py:64 | Each episode starts with fresh zero traces. |
| `Classic.QLearning.RunSteps` | algorithm/classic.py:65-84 | The loop runs until `done` and takes at least one step. The arrays equal the replay `QEpisode` of its steps. |
| `Classic.QLearning.RunLearningEpisode` | algorithm/classic.py:63-84 | An episode ends in a done environment. Its steps are a walk on the grid from the starting state, and each step but the last left the episode running. Every action is the epsilon-greedy choice on the table the earlier steps left. The recorded states are the steps' s'. Q is the replay of the steps from zero traces. |
| `Classic.QLearning.ClearAndRun` | abstract.py:47-53 | `clear` then one episode. The length is at least 1 and, past the first step, at most `max_steps`. |
| `Classic.QLearning.Learn` | abstract.py:44-56 | `learn` appends one length per episode (the last being `len(steps)`). Without early stopping all episodes run. With it, learning stops right after the first episode at which `is_learned` holds. The first episode always runs, even when the record before it already counts as learned. |
| `Classic.Sarsa.constructor` | algorithm/classic.py:89-94 | Q starts as zeros of shape states x actions. There is no epsilon parameter. |
| `Classic.Sarsa.GreedyActions` | algorithm/classic.py:59-61 | The greedy actions are the arg-max indices of Q[s, :], as the inherited `get_greedy_actions` gives them. |
| `Classic.Sarsa.Update` | algorithm/classic.py:108-114 | The tables after the in-place update are `SarsaStep` of the old tables. |
| `Classic.Sarsa.ActAndLearn` | algorithm/classic.py:104-114 | The carried action drives `do_action`. a' is the greedy (non-exploring) choice at s' on the old Q. The tables learn `SarsaStep`. The reward is non-zero iff s' is absorbing. |
| `Classic.Sarsa.EpisodeStep` | algorithm/classic.py:100-120 | One pass of the loop extends the episode invariant and carries (s', a') forward. |
| `Classic.Sarsa.StartEpisode` | algorithm/classic.py:97-99 | Fresh zero traces, and the first action is greedy on the current state. |
| `Classic.Sarsa.RunSteps` | algorithm/classic.py:100-120 | The loop runs until `done`, with the arrays equal to `SarsaEpisode` of its steps. |
| `Classic.Sarsa.RunLearningEpisode` | algorithm/classic.py:96-120 | An episode ends done, with its steps a walk that ran on until the last. Each a is the a' of the previous step (the first chosen greedily at the start), and each a' is greedy on the table before its step. Q is the replay of the steps. |
| `Classic.Sarsa.ClearAndRun` | abstract.py:47-53 | `clear` then one episode, with its length bounded as for Q-learning. |
| `Classic.Sarsa.Learn` | abstract.py:44-56 | This is the `learn` driver's outcome, as for Q-learning. |
| `Classic.RLearning.constructor` | algorithm/classic.py:125-131 | Q starts as zeros. There is no gamma parameter, and beta is stored. |
| `Classic.RLearning.GreedyActions` | algorithm/classic.py:59-61 | The greedy actions are the arg-max indices of Q[s, :]. |
| `Classic.RLearning.UpdateRho` | algorithm/classic.py:152-154 | Rho after the update is `RhoUpdate` on the updated Q, judged at s. |
| `Classic.RLearning.Update` | algorithm/classic.py:145-154 | The tables and rho after the update are `RStep` of the old ones. |
| `Classic.RLearning.ActAndLearn` | algorithm/classic.py:140-154 | The action is epsilon-greedy on the old Q. A single `do_action` makes a grid transition. The tables and rho learn `RStep`. |
| `Classic.RLearning.EpisodeStep` | algorithm/classic.py:136-157 | One pass of the loop extends the episode invariant, including rho. |
| `Classic.RLearning.StartEpisode` | algorithm/classic.py:134-135 | Fresh zero traces, and rho = 0 at the start of every episode. |
| `Classic.RLearning.RunSteps` | algorithm/classic.py:136-157 | The loop runs until `done`, with Q, traces and rho equal to `REpisode` of its steps. |
| `Classic.RLearning.RunLearningEpisode` | algorithm/classic.py:133-157 | An episode ends done, with its steps a walk of epsilon-greedy choices. Q is the replay of `RStep` from zero traces and rho = 0. |
| `Classic.RLearning.ClearAndRun` | abstract.py:47-53 | `clear` then one episode, with its length bounded. |
| `Classic.RLearning.Learn` | abstract.py:44-56 | This is the `learn` driver's outcome. |
| `Classic.Ahc.constructor` | algorithm/classic.py:8-14 | V starts as ones over the states and mi as zeros of shape states x actions. beta is stored. |
| `Classic.Ahc.GreedyActions` | algorithm/classic.py:16-18 | The greedy actions are the arg-max indices of the preferences mi[s, :]. |
| `Classic.Ahc.Update` | algorithm/classic.py:34-44 | V, mi and both traces after the in-place update are `AhcStep` of the old ones. |
| `Classic.Ahc.ActAndLearn` | algorithm/classic.py:29-44 | The action is epsilon-greedy on the old preferences. A single `do_action` makes a grid transition. The tables learn `AhcStep`. |
| `Classic.Ahc.EpisodeStep` | algorithm/classic.py:25-48 | One pass of the loop extends the episode invariant. |
| `Classic.Ahc.StartEpisode` | algorithm/classic.py:21-23 | Fresh zero traces of both kinds. |
| `Classic.Ahc.RunSteps` | algorithm/classic.py:25-48 | The loop runs until `done`, with the tables equal to `AhcEpisode` of its steps. |
| `Classic.Ahc.RunLearningEpisode` | algorithm/classic.py:20-48 | An episode ends done, with its steps a walk of epsilon-greedy choices on the preferences. V and mi are the replay of `AhcStep`. |
| `Classic.Ahc.ClearAndRun` | abstract.py:47-53 | `clear` then one episode, with its length bounded. |
| `Classic.Ahc.Learn` | abstract.py:44-56 | This is the `learn` driver's outcome. |
| `Cmac.Qs` | algorithm/cmac.py:62-65 | These are the per-layer tables, with the traces dropped. |
| `Cmac.Sizes` | algorithm/cmac.py:61-65 | There is one row count per layer, each equal to the number of that layer's possible states. |
| `Cmac.CodesOf` | abstract.py:207-210 | The CMAC state of an observation has one code per layer, each within that layer's table. |
| `Cmac.SelectedRows` | algorithm/cmac.py:69 | Layer l contributes its row at the code s[l]. |
| `Cmac.SumRows` | algorithm/cmac.py:69 | The column sum of the rows keeps their width. |
| `Cmac.Column` | algorithm/cmac.py:69 | These are the entries of one column, one per row. |
| `Cmac.SumRowsColumn` | algorithm/cmac.py:69 | Entry j of the summed row is the sum over the layers of their entries j. |
| `Cmac.SummedRow` | algorithm/cmac.py:67-70 | The summed action values at a CMAC state have one entry per action. |
| `Cmac.SummedGreedySet` | algorithm/cmac.py:67-70 | The greedy set is ascending and non-empty. It holds exactly the actions whose summed value is at least every other action's. |
| `Cmac.SummedGreedyOfConstant` | algorithm/cmac.py:62-70 | On tables that are constant in the selected rows, as freshly zeroed ones are, every action is greedy. |
| `Cmac.SummedGreedyOfFirstColumn` | algorithm/cmac.py:67-70 | When only action 0 carries value, it is the unique greedy action. |
| `Cmac.RowTdUpdate` | algorithm/cmac.py:89-96 | One layer's update keeps the shapes of its table and traces. |
| `Cmac.RowTdUpdateEntry` | algorithm/cmac.py:89-96 | With traces only row s moves, by step times its bumped trace row, and only that trace row decays. Without traces only entry (s, a) moves, by the step. |
| `Cmac.LayersTdUpdate` | algorithm/cmac.py:89-96 | Every layer is updated at its own code, with its own error, and keeps its shape. |
| `Cmac.QDeltas` | algorithm/cmac.py:85-88 | There is one error per layer. |
| `Cmac.QStep` | algorithm/cmac.py:85-96 | A CMACQ step keeps every layer's shape. |
| `Cmac.QStepEntry` | algorithm/cmac.py:85-96 | Entry (i, j) of layer l moves as `RowTdUpdateEntry` says, at s[l]. The step is alpha / n_layers times r + gamma * max q[l][s'[l], :] - q[l][s[l], a], and the decay is gamma * lambda. |
| `Cmac.QStepLayerLocal` | algorithm/cmac.py:85-96 | A layer's new table depends only on that layer's old one. |
| `Cmac.SummedGreedyMember` | algorithm/cmac.py:67-70 | An action is in the arg-max of the summed row iff its summed value dominates every other action's. |
| `Cmac.Values` | algorithm/cmac.py:62-65 | These are the values the per-layer arrays hold. |
| `Cmac.Layers` | algorithm/cmac.py:73-74 | These are the values of the tables paired with their traces. |
| `Cmac.ConstantTables` | algorithm/cmac.py:62-65 | These are tables of the layers' shapes holding one value everywhere. |
| `Cmac.NewTables` | algorithm/cmac.py:62-65 | Allocates distinct, fresh arrays, one per layer, holding the constant tables. |
| `Cmac.RowTdUpdateInPlace` | algorithm/cmac.py:90-96 | The in-place update of one layer's arrays is `RowTdUpdate` on their old contents. |
| `Cmac.LayerTdUpdateInPlace` | algorithm/cmac.py:89-96 | Layer t moves as `RowTdUpdate`, and every other layer is unchanged. |
| `Cmac.LayersTdUpdateInPlace` | algorithm/cmac.py:89-96 | The loop over layers leaves the arrays equal to `LayersTdUpdate` of their old contents. |
| `Cmac.Cols` | abstract.py:155-157 | A continuous environment has at least one action. |
| `Cmac.MovesInTable` | algorithm/cmac.py:80-84 | A CMAC step's codes and action lie within the tables. |
| `Cmac.NextStates` | abstract.py:204 | An episode records one state per step. |
| `Cmac.QEpisode` | algorithm/cmac.py:76-100 | Replaying CMACQ steps keeps every layer's shape. |
| `Cmac.ZeroLayers` | algorithm/cmac.py:62-65 | These are the layers' `np.zeros` tables. |
| `Cmac.NewTraces` | algorithm/cmac.py:73-74 | Allocates fresh zero traces of the tables' shapes, distinct from the tables and from each other. |
| `Cmac.Zero` | algorithm/cmac.py:74 | An all-zero matrix of the given shape. |
| `Cmac.WithZeroTraces` | algorithm/cmac.py:73-74 | Pairs the tables' values with zero traces. |
| `Cmac.GreedyOf` | algorithm/cmac.py:67-70 | The greedy set at a CMAC state is non-empty, strictly ascending and within the actions. An action belongs to it iff its summed value is at least every other action's. |
| `Cmac.GreedyOfIsArgMax` | algorithm/cmac.py:67-70 | The greedy set is the arg-max of the summed rows. |
| `Cmac.ChooseIsGetAction` | abstract.py:38-42 | `get_action` over the summed greedy set is the epsilon-greedy choice on the summed row. |
| `Cmac.StateCodes` | abstract.py:207-210 | While the CMAC approximator is installed, `state` is the tuple of the layers' codes of the observation. |
| `Cmac.ActOn` | abstract.py:200-205 | One `do_action` makes a move of the continuous model from the coded state, records the new codes and leaves the tables alone. |
| `Cmac.CmacQ.constructor` | algorithm/cmac.py:57-65 | The tables start as zeros of shape (layer states) x actions, one table per layer, and the hyper-parameters are stored. |
| `Cmac.CmacQ.GreedyActions` | algorithm/cmac.py:67-70 | `get_greedy_actions` is the summed greedy set at s. |
| `Cmac.CmacQ.ChooseAction` | abstract.py:38-42 | The action is the epsilon-greedy choice on the summed row at s. |
| `Cmac.CmacQ.Update` | algorithm/cmac.py:85-96 | The arrays after the in-place loop over the layers are `QStep` of their old contents. |
| `Cmac.CmacQ.Act` | algorithm/cmac.py:80-84 | The action is epsilon-greedy on the old summed row. A single `do_action` moves the continuous model and records the new codes. |
| `Cmac.CmacQ.EpisodeStep` | algorithm/cmac.py:76-100 | One pass of the loop extends the episode invariant by the step just taken, and `done` holds iff the episode stops there. |
| `Cmac.CmacQ.StartEpisode` | algorithm/cmac.py:73-74 | Each episode starts with fresh zero traces. |
| `Cmac.CmacQ.RunSteps` | algorithm/cmac.py:76-100 | The loop runs until `done` and takes at least one step. |
| `Cmac.CmacQ.RunLearningEpisode` | algorithm/cmac.py:72-100 | An episode ends done and records one coded state per step. Its actions are epsilon-greedy on the summed rows of the moment, and the tables are `QEpisode` of its steps from zero traces. |
| `Cmac.CmacQ.ClearAndRun` | abstract.py:47-53 | `clear` then one episode. The length is at least 1 and, past the first step, at most `max_steps`. |
| `Cmac.CmacQ.Learn` | abstract.py:44-56 | This is the `learn` driver's outcome, with one bounded length per episode. |
| `CmacAhc.Mis` | algorithm/cmac.py:14-17 | These are the per-layer preference tables. |
| `CmacAhc.AhcDeltas` | algorithm/cmac.py:37-40 | There is one critic error per layer. |
| `CmacAhc.AhcLayerUpdate` | algorithm/cmac.py:41-48 | One layer's update keeps the shapes of its values, preferences and traces. |
| `CmacAhc.AhcLayerUpdateEntry` | algorithm/cmac.py:41-48 | Only V[s] moves, by the critic step. Untraced, only mi[s, a] moves, by the actor step, and the traces stay. Traced, every preference moves by the actor step times its bumped trace, and only trace row s decays. |
| `CmacAhc.AhcLayersUpdate` | algorithm/cmac.py:41-48 | Every layer is updated at its own code with its own error, and keeps its shape. |
| `CmacAhc.AhcStep` | algorithm/cmac.py:37-48 | A CMACAHC step keeps every layer's shape. |
| `CmacAhc.AhcStepEntry` | algorithm/cmac.py:37-48 | Layer l moves as `AhcLayerUpdateEntry` says, at s[l]. The critic step is alpha / n_layers * delta[l], the actor step is beta * delta[l] and the decay is gamma * lambda, with delta[l] = r + gamma * V[l][s'[l]] - V[l][s[l]]. |
| `CmacAhc.AhcStepLayerLocal` | algorithm/cmac.py:41-48 | A layer's new values depend only on that layer's old ones. |
| `CmacAhc.Vs` | algorithm/cmac.py:14-16 | These are the values the per-layer vectors hold. |
| `CmacAhc.AhcLayers` | algorithm/cmac.py:14-26 | These are the values, preferences and traces the arrays hold. |
| `CmacAhc.ConstantVectors` | algorithm/cmac.py:16 | These are vectors of the layers' lengths holding one value. |
| `CmacAhc.NewVectors` | algorithm/cmac.py:14-16 | Allocates distinct, fresh vectors, one per layer, holding the constant value. |
| `CmacAhc.AhcLayerUpdateInPlace` | algorithm/cmac.py:42-48 | The in-place update of one layer's arrays is `AhcLayerUpdate` on their old contents. |
| `CmacAhc.AhcLayerUpdateAt` | algorithm/cmac.py:41-48 | Layer l makes its step, and every other layer is unchanged. |
| `CmacAhc.AhcLayersUpdateInPlace` | algorithm/cmac.py:41-48 | The loop over layers leaves the arrays equal to `AhcLayersUpdate` of their old contents. |
| `CmacAhc.AhcEpisode` | algorithm/cmac.py:28-52 | Replaying CMACAHC steps keeps every layer's shape. |
| `CmacAhc.ValuesOf` | algorithm/cmac.py:14-16 | These are the per-layer value vectors. |
| `CmacAhc.AhcWithZeroTraces` | algorithm/cmac.py:25-26 | Pairs the values and preferences with zero traces. |
| `CmacAhc.ActBeside` | abstract.py:200-205 | One `do_action` moves the continuous model from the coded state, records the new codes and leaves V, mi and the traces alone. |
| `CmacAhc.CmacAhc.constructor` | algorithm/cmac.py:8-17 | V starts as ones and mi as zeros, one of each per layer. The hyper-parameters, beta included, are stored. |
| `CmacAhc.CmacAhc.GreedyActions` | algorithm/cmac.py:19-22 | `get_greedy_actions` is the summed greedy set of the preference rows at s. |
| `CmacAhc.CmacAhc.ChooseAction` | abstract.py:38-42 | The action is the epsilon-greedy choice on the summed preference row at s. |
| `CmacAhc.CmacAhc.Update` | algorithm/cmac.py:37-48 | The arrays after the in-place loop over the layers are `AhcStep` of their old contents. |
| `CmacAhc.CmacAhc.Act` | algorithm/cmac.py:32-36 | The action is epsilon-greedy on the old summed preferences. A single `do_action` moves the model and records the new codes. |
| `CmacAhc.CmacAhc.EpisodeStep` | algorithm/cmac.py:28-52 | One pass of the loop extends the episode invariant, and `done` holds iff the episode stops there. |
| `CmacAhc.CmacAhc.StartEpisode` | algorithm/cmac.py:25-26 | Each episode starts with fresh zero traces. |
| `CmacAhc.CmacAhc.RunSteps` | algorithm/cmac.py:28-52 | The loop runs until `done` and takes at least one step. |
| `CmacAhc.CmacAhc.RunLearningEpisode` | algorithm/cmac.py:24-52 | An episode ends done and records one coded state per step. Its actions are epsilon-greedy on the preferences of the moment, and V and mi are `AhcEpisode` of its steps. |
| `CmacAhc.CmacAhc.ClearAndRun` | abstract.py:47-53 | `clear` then one episode, with its length bounded. |
| `CmacAhc.CmacAhc.Learn` | abstract.py:44-56 | This is the `learn` driver's outcome. |
| `CmacSarsa.SarsaDeltas` | algorithm/cmac.py:119-122 | There is one SARSA error per layer. |
| `CmacSarsa.SarsaStep` | algorithm/cmac.py:119-130 | A CMACSARSA step keeps every layer's shape. |
| `CmacSarsa.SarsaStepEntry` | algorithm/cmac.py:119-130 | Layer l moves as `RowTdUpdateEntry` says, at s[l]. The step is alpha / n_layers times r + gamma * q[l][s'[l], a'] - q[l][s[l], a], and the decay is gamma * lambda. |
| `CmacSarsa.SarsaEpisode` | algorithm/cmac.py:105-136 | Replaying CMACSARSA steps keeps every layer's shape. |
| `CmacSarsa.Plains` | algorithm/cmac.py:115-118 | These are the steps of an episode without their next actions. |
| `CmacSarsa.CmacSarsa.constructor` | algorithm/cmac.py:57-65 | As CMACQ: one zero table per layer and the hyper-parameters stored. |
| `CmacSarsa.CmacSarsa.GreedyActions` | algorithm/cmac.py:67-70 | The inherited `get_greedy_actions` is the summed greedy set at s. |
| `CmacSarsa.CmacSarsa.ChooseAction` | abstract.py:38-42 | The action is the epsilon-greedy choice on the summed row at s. |
| `CmacSarsa.CmacSarsa.Update` | algorithm/cmac.py:119-130 | The arrays after the in-place loop over the layers are `SarsaStep` of their old contents. |
| `CmacSarsa.CmacSarsa.Act` | algorithm/cmac.py:115-117 | `do_action(a)` at the current codes moves the model and records the new codes, which lie in the tables. |
| `CmacSarsa.CmacSarsa.EpisodeStep` | algorithm/cmac.py:111-136 | One pass of the loop extends the episode invariant, with the next action chosen on the tables before they move and carried to the next pass. `done` holds iff the episode stops there. |
| `CmacSarsa.CmacSarsa.StartEpisode` | algorithm/cmac.py:106-109 | Each episode starts with fresh zero traces and with the first action chosen at the starting codes. |
| `CmacSarsa.CmacSarsa.RunSteps` | algorithm/cmac.py:111-136 | The loop runs until `done` and takes at least one step. |
| `CmacSarsa.CmacSarsa.RunLearningEpisode` | algorithm/cmac.py:105-136 | An episode ends done and records one coded state per step. Each action is the one chosen at the end of the step before, and the tables are `SarsaEpisode` of its steps. |
| `CmacSarsa.CmacSarsa.ClearAndRun` | abstract.py:47-53 | `clear` then one episode, with its length bounded. |
| `CmacSarsa.CmacSarsa.Learn` | abstract.py:44-56 | This is the `learn` driver's outcome. |
| `CmacR.RDeltas` | algorithm/cmac.py:166-169 | There is one average-reward error per layer. |
| `CmacR.RhoMoves` | algorithm/cmac.py:179-184 | Each rho[l] moves by beta * (r - rho[l] + max q[l][s'[l], :] - max q[l][s[l], :]). |
| `CmacR.RhoStep` | algorithm/cmac.py:178-184 | The update keeps one estimate per layer. |
| `CmacR.MoveRho` | algorithm/cmac.py:179-184 | The loop over the layers yields `RhoMoves`. |
| `CmacR.RStep` | algorithm/cmac.py:166-184 | A CMACR step keeps the shapes. Rho moves on the already updated tables, as `RhoStep` says. |
| `CmacR.RStepEntry` | algorithm/cmac.py:166-177 | Layer l moves at s[l] by alpha / n_layers times r - rho[l] + max q[l][s'[l], :] - q[l][s[l], a]. Its traces decay by lambda alone, with no discount. |
| `CmacR.RhoStepMoves` | algorithm/cmac.py:178-184 | When a is greedy at s on the moved tables, every rho[l] moves as `RhoMoves` says. Otherwise rho is unchanged. |
| `CmacR.ZeroRho` | algorithm/cmac.py:155 | Every estimate starts at 0.0, one per layer. |
| `CmacR.REpisode` | algorithm/cmac.py:152-188 | Replaying CMACR steps keeps the shapes and one estimate per layer. |
| `CmacR.CmacR.constructor` | algorithm/cmac.py:141-150 | One zero table per layer. There is no discount, and beta is stored. |
| `CmacR.CmacR.GreedyActions` | algorithm/cmac.py:67-70 | The inherited `get_greedy_actions` is the summed greedy set at s. |
| `CmacR.CmacR.ChooseAction` | abstract.py:38-42 | The action is the epsilon-greedy choice on the summed row at s. |
| `CmacR.CmacR.Update` | algorithm/cmac.py:166-184 | The arrays and estimates after the update are `RStep` of the old ones. |
| `CmacR.CmacR.UpdateRho` | algorithm/cmac.py:178-184 | The estimates are `RhoStep` on the current tables. |
| `CmacR.CmacR.RhoOn` | algorithm/cmac.py:178-184 | The rho update leaves the tables and the environment as they are. |
| `CmacR.CmacR.Act` | algorithm/cmac.py:161-165 | The action is epsilon-greedy on the old summed row. A single `do_action` moves the model and records the new codes. |
| `CmacR.CmacR.EpisodeStep` | algorithm/cmac.py:157-188 | One pass of the loop extends the episode invariant, rho included. `done` holds iff the episode stops there. |
| `CmacR.CmacR.StartEpisode` | algorithm/cmac.py:153-155 | Each episode starts with fresh zero traces and every rho[l] = 0. |
| `CmacR.CmacR.RunSteps` | algorithm/cmac.py:157-188 | The loop runs until `done` and takes at least one step. |
| `CmacR.CmacR.RunLearningEpisode` | algorithm/cmac.py:152-188 | An episode ends done and records one coded state per step. Its actions are epsilon-greedy, and the tables are `REpisode` of its steps from zero traces and zero estimates. |
| `CmacR.CmacR.ClearAndRun` | abstract.py:47-53 | `clear` then one episode, with its length bounded. |
| `CmacR.CmacR.Learn` | abstract.py:44-56 | This is the `learn` driver's outcome. |
| `FuzzyLearning.TimesIsProduct` | algorithm/fuzzy.py:7-9 | The recursive product that counts rules is the ordinary product. |
| `FuzzyLearning.Scale` | algorithm/fuzzy.py:8 | `x * i` keeps the length of the grade vector. |
| `FuzzyLearning.ScaleEntry` | algorithm/fuzzy.py:8 | Entry j of `x * i` is i times x[j]. |
| `FuzzyLearning.Outer` | algorithm/fuzzy.py:8 | The flattened `[x * i for i in y]` has len(y) * len(x) entries. |
| `FuzzyLearning.Phi` | algorithm/fuzzy.py:7-9 | `phi` of the grade vectors has one entry per rule, the product of the vectors' lengths. |
| `FuzzyLearning.PhiOf` | algorithm/fuzzy.py:7-9 | `phi` fails, with TypeError from `reduce`, iff the state has no variables. Otherwise it is `Phi`. |
| `FuzzyLearning.GradeProductStep` | algorithm/fuzzy.py:7-9 | A rule's grade product is its first grade times the product of the rest. |
| `FuzzyLearning.OuterEntry` | algorithm/fuzzy.py:8 | Entry i * len(x) + j of the outer product is y[i] * x[j], in row-major order. |
| `FuzzyLearning.FlatIndexBound` | algorithm/fuzzy.py:7-9 | Every rule has a row-major position among the rules. |
| `FuzzyLearning.PhiEntry` | algorithm/fuzzy.py:7-9 | The entry of `phi` at a rule's row-major position is the product of the grades the rule picks, one of each variable, with the first variable slowest. |
| `FuzzyLearning.SumPositive` | algorithm/fuzzy.py:26 | A sum of non-negative terms is non-negative, and positive iff some term is. |
| `FuzzyLearning.OuterSign` | algorithm/fuzzy.py:8 | The outer product of non-negative vectors is non-negative. Some entry is positive iff both vectors have a positive entry. |
| `FuzzyLearning.GradedCons` | algorithm/fuzzy.py:7-9 | A state is graded, and covered, iff its first variable and the rest are. |
| `FuzzyLearning.PhiSign` | algorithm/fuzzy.py:7-9 | On grades in [0, 1], `phi` is non-negative, and some rule fires iff every variable has a positive grade. |
| `FuzzyLearning.PhiVanishes` | algorithm/fuzzy.py:25-27 | `phi_s.sum() == 0.0` holds iff some variable has no positive grade. |
| `FuzzyLearning.QOf` | algorithm/fuzzy.py:23-29 | `Q` is the scalar 0.0 iff `phi` sums to 0. Otherwise it is a vector of one value per action. |
| `FuzzyLearning.QOfWeighted` | algorithm/fuzzy.py:28-29 | Each action's Q times the sum of `phi` is the phi-weighted sum of its rule values. |
| `FuzzyLearning.QMax` | algorithm/fuzzy.py:34 | `Q.max()` fails with AttributeError on the scalar and with ValueError on an empty vector. Otherwise it is a bound on every entry that some entry attains. |
| `FuzzyLearning.QAt` | algorithm/fuzzy.py:49 | `Q[a]` fails with TypeError on the scalar and with IndexError past the end. Otherwise it is entry a. |
| `FuzzyLearning.Greedy` | algorithm/fuzzy.py:31-34 | `get_greedy_actions` fails with AttributeError iff `phi` sums to 0. Otherwise it is non-empty, strictly ascending, and holds exactly the actions no other action beats. |
| `FuzzyLearning.GreedyOfZeroTable` | algorithm/fuzzy.py:18-34 | On the zero tables every action is greedy, in order. |
| `FuzzyLearning.FUpdate` | algorithm/fuzzy.py:50-55 | The update keeps the shapes of the values and the traces. |
| `FuzzyLearning.FUpdateEntry` | algorithm/fuzzy.py:50-55 | Untraced, only action a's values move, by step * phi[k], and the traces stay. Traced, every value moves by step times its trace after `e[a] += phi(s)`, and that trace is then scaled by the decay. |
| `FuzzyLearning.FUpdateOnlyFiring` | algorithm/fuzzy.py:55 | Untraced, a value of another action, or of a rule that does not fire, keeps its value. |
| `FuzzyLearning.FQDelta` | algorithm/fuzzy.py:49 | The FQ error fails iff no rule fires at s' (AttributeError), or at s (TypeError), or a is out of range. Otherwise it is r + gamma * max Q(s') - Q(s)[a]. |
| `FuzzyLearning.FSarsaDelta` | algorithm/fuzzy.py:88 | The FSARSA error fails iff no rule fires at s' or s, or an action is out of range. Otherwise it is r + gamma * Q(s')[a'] - Q(s)[a]. |
| `FuzzyLearning.FRDelta` | algorithm/fuzzy.py:125 | The FR error fails under the same conditions as FQ's. Otherwise it is r - rho + max Q(s') - Q(s)[a]. |
| `FuzzyLearning.SizeOfShape` | algorithm/fuzzy.py:18-21 | Grade vectors of the lengths `state_shape` lists have as many rules as the table has cells per action. |
| `FuzzyLearning.FQStep` | algorithm/fuzzy.py:49-55 | An FQ step keeps the table shape. |
| `FuzzyLearning.FSarsaStep` | algorithm/fuzzy.py:88-94 | An FSARSA step keeps the table shape. |
| `FuzzyLearning.RhoStepMoves` | algorithm/fuzzy.py:132-134 | Rho moves by beta * (r - rho + max Q(s') - max Q(s)), on the values just learned, iff a is greedy at s on them. Otherwise it stays. |
| `FuzzyLearning.FRTableStep` | algorithm/fuzzy.py:125-131 | An FR step keeps the table shape, and its traces decay by lambda alone. |
| `FuzzyLearning.FRStep` | algorithm/fuzzy.py:125-134 | An FR step keeps the table shape. |
| `FuzzyQ.NActions` | abstract.py:155-157 | A continuous environment has at least one action. |
| `FuzzyQ.GradesOf` | approximator.py:195-199 | The state of an observation is the grade vector of every variable under its fuzzy set. |
| `FuzzyQ.DefaultFuzzySetCoversLine` | approximator.py:127-131 | A default set from non-decreasing cut-points, at least one of them, grades every number positively. So the default fuzzy approximator meets the condition the FQ, FSARSA and FR constructors require. |
| `FuzzyQ.GradesFire` | algorithm/fuzzy.py:25-27 | When every set covers the line, every observation's grades are in range and some rule fires, so `Q` is a vector. |
| `FuzzyQ.MovesInTable` | algorithm/fuzzy.py:44-48 | A step's action and both states lie within the table. |
| `FuzzyQ.NextStates` | abstract.py:204 | An episode records one state per step. |
| `FuzzyQ.ChooseAt` | abstract.py:38-42 | The choice is an action. Unless the draw explores, it is greedy on Q at the grades, and it is `Choose` on the Q vector. |
| `FuzzyQ.FQEpisode` | algorithm/fuzzy.py:40-59 | Replaying FQ steps keeps the table shape. |
| `FuzzyQ.StateGrades` | abstract.py:207-210 | While the fuzzy approximator is installed, `state` is the grades of the observation. |
| `FuzzyQ.ActOn` | abstract.py:200-205 | One `do_action` moves the continuous model from the graded state and records the new grades. |
| `FuzzyQ.Tables` | algorithm/fuzzy.py:18-38 | These are the values and traces the two arrays hold. |
| `FuzzyQ.NewTraces` | algorithm/fuzzy.py:38 | Allocates fresh zero traces of the table's shape. |
| `FuzzyQ.FUpdateInPlace` | algorithm/fuzzy.py:50-55 | The in-place update is `FUpdate` on the old contents. |
| `FuzzyQ.ZeroValues` | algorithm/fuzzy.py:18-21 | The zero table has one row per action and one column per rule. |
| `FuzzyQ.WithZeroTraces` | algorithm/fuzzy.py:37-38 | Pairs the values with zero traces of their shape. |
| `FuzzyQ.FQ.constructor` | algorithm/fuzzy.py:14-21 | The table starts as zeros, one value per action and rule, and the hyper-parameters are stored. |
| `FuzzyQ.FQ.GreedyActions` | algorithm/fuzzy.py:31-34 | `get_greedy_actions` at the grades is `Greedy` on the table and `phi`. |
| `FuzzyQ.FQ.ChooseAction` | abstract.py:38-42 | The action is the epsilon-greedy choice on Q at the grades. |
| `FuzzyQ.FQ.Update` | algorithm/fuzzy.py:49-55 | The arrays after the update are `FQStep` of their old contents. |
| `FuzzyQ.FQ.ActStep` | algorithm/fuzzy.py:44-48 | The step reads the grades, chooses epsilon-greedily on the current table, acts once and reads the reward and new grades. |
| `FuzzyQ.FQ.EpisodeStep` | algorithm/fuzzy.py:40-59 | One pass of the loop extends the episode invariant, and `done` holds iff the episode stops there. |
| `FuzzyQ.FQ.StartEpisode` | algorithm/fuzzy.py:37-38 | Each episode starts with fresh zero traces. |
| `FuzzyQ.FQ.RunSteps` | algorithm/fuzzy.py:40-59 | The loop runs until `done` and takes at least one step. |
| `FuzzyQ.FQ.RunLearningEpisode` | algorithm/fuzzy.py:36-59 | An episode ends done and records one graded state per step. Its actions are epsilon-greedy on Q of the moment, and the table is `FQEpisode` of its steps from zero traces. |
| `FuzzyQ.FQ.ClearAndRun` | abstract.py:47-53 | `clear` then one episode, with its length bounded. |
| `FuzzyQ.FQ.Learn` | abstract.py:44-56 | This is the `learn` driver's outcome. |
| `FuzzySarsa.SarsaEpisode` | algorithm/fuzzy.py:74-100 | Replaying FSARSA steps keeps the table shape. |
| `FuzzySarsa.Plains` | algorithm/fuzzy.py:84-87 | These are the steps of an episode without their next actions. |
| `FuzzySarsa.FSarsa.constructor` | algorithm/fuzzy.py:64-72 | The table starts as zeros. There is no epsilon, and lambda, gamma and alpha are stored. |
| `FuzzySarsa.FSarsa.ChooseAction` | algorithm/fuzzy.py:78 | `get_action(epsilon_greedy=False)` is a greedy action on Q at the grades. |
| `FuzzySarsa.FSarsa.Update` | algorithm/fuzzy.py:88-94 | The arrays after the update are `FSarsaStep` of their old contents. |
| `FuzzySarsa.FSarsa.ActStep` | algorithm/fuzzy.py:84-86 | `do_action(a)` at the current grades, then reading the reward and the new grades. |
| `FuzzySarsa.FSarsa.EpisodeStep` | algorithm/fuzzy.py:80-100 | One pass of the loop extends the episode invariant, with the next action chosen greedily on the table before it moves and carried to the next pass. `done` holds iff the episode stops there. |
| `FuzzySarsa.FSarsa.StartEpisode` | algorithm/fuzzy.py:75-78 | Each episode starts with fresh zero traces and a greedy first action at the starting grades. |
| `FuzzySarsa.FSarsa.RunSteps` | algorithm/fuzzy.py:80-100 | The loop runs until `done` and takes at least one step. |
| `FuzzySarsa.FSarsa.RunLearningEpisode` | algorithm/fuzzy.py:74-100 | An episode ends done and records one graded state per step. Each action is the greedy one chosen at the end of the step before, and the table is `SarsaEpisode` of its steps. |
| `FuzzySarsa.FSarsa.ClearAndRun` | abstract.py:47-53 | `clear` then one episode, with its length bounded. |
| `FuzzySarsa.FSarsa.Learn` | abstract.py:44-56 | This is the `learn` driver's outcome. |
| `FuzzyR.FREpisode` | algorithm/fuzzy.py:111-138 | Replaying FR steps keeps the table shape. |
| `FuzzyR.FR.constructor` | algorithm/fuzzy.py:105-109 | The table starts as zeros. There is no discount, and beta is stored. |
| `FuzzyR.FR.ChooseAction` | abstract.py:38-42 | The action is the epsilon-greedy choice on Q at the grades. |
| `FuzzyR.FR.UpdateValues` | algorithm/fuzzy.py:125-131 | The arrays after the value update are `FRTableStep` of their old contents. |
| `FuzzyR.FR.UpdateRho` | algorithm/fuzzy.py:132-134 | Rho after the update is `RhoStep` on the values just learned. |
| `FuzzyR.FR.Update` | algorithm/fuzzy.py:125-134 | The arrays and rho after the update are `FRStep` of the old ones. |
| `FuzzyR.FR.ActStep` | algorithm/fuzzy.py:120-124 | The step chooses epsilon-greedily on the current table, acts once and reads the reward and new grades. |
| `FuzzyR.FR.EpisodeStep` | algorithm/fuzzy.py:116-138 | One pass of the loop extends the episode invariant, rho included. `done` holds iff the episode stops there. |
| `FuzzyR.FR.StartEpisode` | algorithm/fuzzy.py:112-114 | Each episode starts with fresh zero traces and rho = 0.0. |
| `FuzzyR.FR.RunSteps` | algorithm/fuzzy.py:116-138 | The loop runs until `done` and takes at least one step. |
| `FuzzyR.FR.RunLearningEpisode` | algorithm/fuzzy.py:111-138 | An episode ends done and records one graded state per step. The table is `FREpisode` of its steps from zero traces and rho = 0. |
| `FuzzyR.FR.ClearAndRun` | abstract.py:47-53 | `clear` then one episode, with its length bounded. |
| `FuzzyR.FR.Learn` | abstract.py:44-56 | This is the `learn` driver's outcome. |

## Left out

- Physics: the equations of motion in `BallBeam.step`, `MountainCar.step` and `CartPole.step` (environment/models.py:140-146, 225-232, 334-355) use floating-point sin/cos integration. They are the function parameter `dynamics` of the continuous environments, so every result about continuous episodes holds for any dynamics.
- Rendering and output: the `render` methods of the models and environments, `Model.close`, the matplotlib plotting functions of `misc.py` and the status `print` in `learn` produce no state the learning reads.
- Randomness: `random()` and `choice` in `get_action` become a `Draw` value per step, drawn from a sequence `draws` the caller supplies. The model states which action each draw yields, not its probability.
- Floating point: `round(..., 3)` and `round(..., 7)` in the approximators are dropped in favour of exact reals, so the equal-gap test compares exact gaps. NaN, which `inf - inf` or `0 * inf` yield in a membership grade with infinite parameters, is excluded by the `NaNFree` precondition on membership functions. The default fuzzy sets built from cut-points are proved to meet it.
- `Environments.Reward`: the thresholds are exact reals, and π in the CartPole angle threshold is an exact constant. A test that relies on the double-precision value of 12/180·π is not reproduced. The BallBeam threshold is beam_length / 2 = 1, as the code computes it, not the 0.5 one test expects.
- `episodes` is the length of each class's `stepsPerEpisode` field and has no member of its own.
- Traces: each episode allocates its trace arrays even when lambd = 0, where the source allocates none. Untraced updates never read or write them, so the tables evolve the same.
- Discount of R, CMACR and FR: the source passes `gamma = None`. In the model their step parameters carry gamma = 0.0, which no R step reads.
- `Learn`: `learn` is written once per algorithm class, since classes cannot share an implementation. Each copy has the same contract, `LearnOutcome`.
- Classic algorithms: AHC, Q, SARSA and R are modelled on the grid environment. Table-approximated continuous environments, which `ClassicAlgorithm` also accepts, are modelled for the compatibility check only and not for episodes.
- Fuzzy tables: numpy's tensor of shape (actions, state_shape...) is flattened row-major into an `array2` of one row per action. `FuzzyLearning.PhiEntry` proves the flattening puts each rule where its index tuple says.
- `FuzzyQ.FQ.constructor`, `FuzzySarsa.FSarsa.constructor`, `FuzzyR.FR.constructor`: the episodes are modelled for fuzzy sets that grade every number positively, a condition the constructors require. `FuzzyQ.DefaultFuzzySetCoversLine` proves that the default sets meet it. Under it `Q` is never the scalar 0.0. The scalar path and the errors it raises are modelled in `FuzzyLearning.QOf`, `QMax`, `QAt`, `Greedy` and the `...Delta` functions, but not in the episode loops.
- `Classic.RLearning.UpdateRho`: judges greediness at s in every state, as the corrected `Classic.RStep` does. At state 0 the code as written judges it at s' (algorithm/classic.py:60, 152); that behaviour is `Classic.RStepAsWritten`, shown in Findings.
- `Classic.RLearning.Update`: learns the corrected `Classic.RStep`, so at state 0 its rho differs from the code as written, `Classic.RStepAsWritten`.
- `Classic.RLearning.ActAndLearn`: learns the corrected `Classic.RStep`, not the as-written rho update at state 0.
- `Classic.RLearning.EpisodeStep`: its invariant is the replay of the corrected `Classic.RStep`, not of `Classic.RStepAsWritten`.
- `Classic.RLearning.RunSteps`: replays the corrected `Classic.RStep`; episodes that pass through state 0 differ in rho from the code as written.
- `Classic.RLearning.RunLearningEpisode`: the promised Q, traces and rho are the `Classic.RStep` replay, not what the code as written computes when the episode visits state 0.
- Class-level mutable defaults (`Grid` and `GridEnvironment` arrays shared between instances) are per-instance configuration.
- The experiment scripts and the test doubles are not part of this model.

## Findings

| source | as written | input that shows it | evidently intended | confidence | as-written member | corrected member |
|---|---|---|---|---|---|---|
| algorithm/classic.py:152 | `get_greedy_actions(s)` goes through `s or self.environment.state` (line 60), so at state 0 it judges greediness at the new state s' | state 0 with Q = [[0, 0], [0, 1]], the move (0, action 0, reward 0, 1), beta 0.5, lambda 0: rho stays 0 | rho is judged at s: action 0 is greedy at state 0, so rho becomes 0.5 | not executed | `Classic.RStepAsWrittenMissesStateZero` | `Classic.RStep` |
