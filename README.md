# AlanProject core, modelled in Dafny

AlanProject drives two small talking robots with spiking neural networks
built in nengo. Around the network wiring sit several pieces whose
behaviour can be stated exactly, and this project models them:

- **Matrix-product routing** (`MatrixRouting`, `MatrixNetwork`,
  `UtilsMatrixMultiplication`, `ModelsMatrixMultiplication`,
  `ComputingElbowPosition`, `ComputeTargetPosition`).
  - The `MatrixMultiplication` network multiplies a D1×D2 matrix A by a D2×D3 matrix B.
  - Its triple loop fills two 0/1 routing arrays. Each places one element of A and one of B into every two-slot product cell.
  - A single loop fills a summing array that collects D2 products into each output entry.
  - The construction loops are modelled as methods over `array2<real>`.
  - The network's steady-state value is modelled as a function: route, multiply each cell, sum.
  - The model proves that the network yields the row-major product A·B. It proves the same for the two scripts that inline the wiring: 3×3·3×3 with a hard-coded 9×27 summing array, and 1×2·2×2 with a summing array as wide as B.
- **Vector networks** (`CrossProduct`, `DotProduct`, `VectorDifference`).
  - `CrossProduct` wires the components of a into a 3×3 skew-symmetric operand of the matrix network.
  - `DotProduct` interleaves A and B into two-dimensional multipliers and sums their products.
  - `VectorDifference` weights A by +1 and B by −1 into an array of doubled radius.
- **Container-backed I/O nodes** (`RobotInterface`, `RobotModels`).
  - `Container` is a key→value store that starts a callback on `update`.
  - `Motor` and `Servo` write to the container at most once per sampling period.
  - `Sensor` and `ControlSignal` register an initial value and read it back.
- **The Furhat bridge** (`FurhatBridge`, `PyStrings`).
  - `read` finds the first event line of a received message.
  - The main loop turns speech events into bursts of bytes on four serial lines.
  - The state machine runs over an `interrupted` flag that a stop event sets and a "resume" display clears.
- **Action selection** (`ActionSelection`). `ActionIterator.step` rewrites its buffer in place so that action ⌊t mod 3⌋ dominates.
- **Error functions and position checks** (`SquareError`, `ArmControl`,
  `HeadControl`, `TwoDofWithFinger`, `TwoDof`, `OneDofWithFinger`, `OneDof`,
  `OneDofSquareError`, `PositionChecks`).
  - Every error function is a signed square sign(d)·d², sometimes scaled by a sensitivity.
  - The arm and the head assert that each position they are built with has three components, and warn about components outside `length_radius`.

Python exceptions are values of `Wrappers.Error` inside `Result` or
`Option` results. Nengo nodes, ensembles and connections appear only as the
sizes, transforms and functions the code gives them. Times, values and
sensitivities are exact `real`s.

## Model

| member | source | states |
|---|---|---|
| MatrixRouting.Mod | robot_utils/matrix_multiplication.py:71 | Python's `//` and `%` on naturals: the remainder is below the divisor |
| MatrixRouting.DivMod | robot_utils/matrix_multiplication.py:71 | t = (t // d)·d + t % d with t % d < d |
| MatrixRouting.DivModUnique | robot_utils/matrix_multiplication.py:71 | quotient and remainder are the only pair with t = q·d + r, 0 ≤ r < d |
| MatrixRouting.Decompose | robot_utils/matrix_multiplication.py:51-55 | recovers (i, j, k) from a cell index, with j < D2 and k < D3 |
| MatrixRouting.SlotInRange | robot_utils/matrix_multiplication.py:41-55 | every tmp = j + k·D2 + i·D2·D3 built by the loops is below D1·D2·D3, the number of C pairs |
| MatrixRouting.DecomposeSlot | robot_utils/matrix_multiplication.py:54-55 | tmp is one-to-one: decomposing the slot of (i, j, k) gives back (i, j, k) |
| MatrixRouting.SlotDecompose | robot_utils/matrix_multiplication.py:41-55 | tmp is onto: every cell below D1·D2·D3 is the slot of some loop index (i < D1, j < D2, k < D3) |
| MatrixRouting.ColumnsInRange | robot_utils/matrix_multiplication.py:48-57 | the A and B columns that a cell reads are inside the flattened A and B |
| MatrixRouting.TransformARow | robot_utils/matrix_multiplication.py:48-56 | row 2·tmp of transform_a has its single 1 at column j + i·D2 (A[i][j]); row 2·tmp+1 is zero |
| MatrixRouting.TransformBRow | robot_utils/matrix_multiplication.py:49-57 | row 2·tmp+1 of transform_b has its single 1 at column k + j·D3 (B[j][k]); row 2·tmp is zero |
| MatrixRouting.PartialStep | robot_utils/matrix_multiplication.py:53-57 | one innermost iteration writes exactly the two 1s of cell (i, j, k) and leaves every other entry as it was |
| MatrixRouting.PartialNextJ | robot_utils/matrix_multiplication.py:52-53 | finishing the k loop is the same state as starting the next j |
| MatrixRouting.PartialNextI | robot_utils/matrix_multiplication.py:51-52 | finishing the j loop is the same state as starting the next i |
| MatrixRouting.PartialDone | robot_utils/matrix_multiplication.py:51-57 | after the whole triple loop the arrays hold exactly the routing entries EntryA / EntryB |
| MatrixRouting.Zeros | robot_utils/matrix_multiplication.py:48-49 | `np.zeros((rows, cols))`: a fresh array of that shape with every entry 0 |
| MatrixRouting.RouteCell | robot_utils/matrix_multiplication.py:54-57 | the innermost body writes the A entry into row 2·tmp and the B entry into row 2·tmp+1, carrying the loop invariant one k further |
| MatrixRouting.RouteColumn | robot_utils/matrix_multiplication.py:53-57 | the k loop carries the invariant from (i, j, 0) to (i, j+1, 0) |
| MatrixRouting.RouteRow | robot_utils/matrix_multiplication.py:52-57 | the j loop carries the invariant from (i, 0, 0) to (i+1, 0, 0) |
| MatrixRouting.BuildTransformsAB | robot_utils/matrix_multiplication.py:48-57 | the zero arrays and triple loop give 2·D1·D2·D3 × D1·D2 and × D2·D3 arrays equal entry by entry to the routing specification |
| MatrixRouting.BuildTransformC | robot_utils/matrix_multiplication.py:68-71 | the zero array and single loop give an array whose column p holds its single 1 in row p // B.shape[0] |
| MatrixRouting.RowOfC | robot_utils/matrix_multiplication.py:70-71 | row q of transform_c is 1 exactly on columns q·D2 … q·D2+D2−1: each output row collects D2 products |
| MatrixRouting.Apply | robot_utils/matrix_multiplication.py:60-75 | a connection with a transform: one output per transform row |
| MatrixRouting.Add | robot_utils/matrix_multiplication.py:60-61 | two connections into C.input add up element by element |
| MatrixRouting.TransformA | robot_utils/matrix_multiplication.py:48 | transform_a has 2·D1·D2·D3 rows of width D1·D2 |
| MatrixRouting.TransformB | robot_utils/matrix_multiplication.py:49 | transform_b has 2·D1·D2·D3 rows of width D2·D3 |
| MatrixRouting.TransformC | robot_utils/matrix_multiplication.py:68-69 | transform_c has D.dimensions rows of width A.size·B.shape[1] |
| MatrixRouting.CellProducts | robot_utils/matrix_multiplication.py:8-74 | the `product` output of C: one value per two-dimensional ensemble |
| MatrixRouting.ProductsAt | robot_utils/matrix_multiplication.py:8-74 | the product of cell t is the first slot times the second slot |
| MatrixRouting.Network | robot_utils/matrix_multiplication.py:48-78 | the value D settles on has D1·D3 entries |
| MatrixRouting.Routed | robot_utils/matrix_multiplication.py:60-61 | C receives 2·D1·D2·D3 values |
| MatrixRouting.Cells | robot_utils/matrix_multiplication.py:74 | C decodes D1·D2·D3 products |
| MatrixRouting.Times | robot_utils/matrix_multiplication.py:8-78 | the reference matrix product has shape D1×D3 |
| MatrixRouting.FlattenAt | robot_utils/matrix_multiplication.py:32-57 | A[i][j] sits at index j + i·cols of the flattened matrix that drives in_A / in_B |
| MatrixRouting.UnitRow | robot_utils/matrix_multiplication.py:56-61 | a 0/1 row with a single 1 at column c selects v[c] |
| MatrixRouting.BlockRow | robot_utils/matrix_multiplication.py:71-75 | a row that is 1 on a block of columns sums that block |
| MatrixRouting.AddAt | robot_utils/matrix_multiplication.py:60-61 | each slot of C receives the sum of both routed connections |
| MatrixRouting.ApplyAt | robot_utils/matrix_multiplication.py:60-75 | each output of a connection is its transform row times the input |
| MatrixRouting.FirstSlotRows | robot_utils/matrix_multiplication.py:56-57 | row 2t of transform_a picks the A column of cell t, and row 2t of transform_b is zero |
| MatrixRouting.SecondSlotRows | robot_utils/matrix_multiplication.py:56-57 | row 2t+1 of transform_b picks the B column of cell t, and row 2t+1 of transform_a is zero |
| MatrixRouting.RoutedFirst | robot_utils/matrix_multiplication.py:56-60 | the first slot of cell t receives exactly the A element routed to it |
| MatrixRouting.RoutedSecond | robot_utils/matrix_multiplication.py:57-61 | the second slot of cell t receives exactly the B element routed to it |
| MatrixRouting.CellAt | robot_utils/matrix_multiplication.py:56-74 | cell t decodes the product of its A element and its B element |
| MatrixRouting.CellsColumnProducts | robot_utils/matrix_multiplication.py:56-74 | every cell decodes the product of its routed pair |
| MatrixRouting.ColumnsAtSlot | robot_utils/matrix_multiplication.py:54-57 | the slot of (i, j, k) reads A[i][j] and B[j][k] |
| MatrixRouting.CellProductAt | robot_utils/matrix_multiplication.py:54-74 | the cell of (i, j, k) decodes A[i][j]·B[j][k] |
| MatrixRouting.CellsHoldProducts | robot_utils/matrix_multiplication.py:54-74 | this holds for every (i, j, k) |
| MatrixRouting.OutputBlock | robot_utils/matrix_multiplication.py:54-71 | the cells summed into output i·D3+k are exactly the slots of (i, 0..D2−1, k) |
| MatrixRouting.BlockSum | robot_utils/matrix_multiplication.py:71-75 | a block holding A[i][j]·B[j][k] for j < D2 sums to row i of A times column k of B |
| MatrixRouting.BlockCell | robot_utils/matrix_multiplication.py:54-71 | position j of the block of output (i, k) holds A[i][j]·B[j][k] |
| MatrixRouting.SlotHoldsProduct | robot_utils/matrix_multiplication.py:54-57 | the slot of (i, j, k) holds A[i][j]·B[j][k] for row-major inputs |
| MatrixRouting.FlattenRowMajor | robot_utils/matrix_multiplication.py:32-33 | a flattened matrix is its row-major encoding |
| MatrixRouting.BlockCells | robot_utils/matrix_multiplication.py:54-71 | the whole block of output (i, k) holds the D2 products of row i and column k |
| MatrixRouting.NetworkComputesProduct | robot_utils/matrix_multiplication.py:8-78 | routing, pairwise product and summing give exactly the row-major product A·B |
| MatrixRouting.TimesAt | robot_utils/matrix_multiplication.py:77 | entry i·D3+k of the flattened product is row i of A times column k of B |
| MatrixRouting.SummedRow | robot_utils/matrix_multiplication.py:70-75 | output q of transform_c is the sum of cells q·D2 … q·D2+D2−1 |
| MatrixRouting.RowBound | robot_utils/matrix_multiplication.py:68-71 | the block of each of the D1·D3 rows lies inside the D1·D2·D3 cells |
| MatrixRouting.SelectBlock | robot_utils/matrix_multiplication.py:71-75 | a transform_c row sums exactly its own block |
| MatrixRouting.OutputIndex | robot_utils/matrix_multiplication.py:63-66 | every output index q < D1·D3 is i·D3+k for some i < D1 and k < D3 |
| MatrixRouting.NetworkEntry | robot_utils/matrix_multiplication.py:70-75 | output q of the network is the sum of its block of cells |
| MatrixRouting.OutputEntry | robot_utils/matrix_multiplication.py:48-78 | output i·D3+k of the network, driven by flattened A and B, is row i of A times column k of B |
| MatrixRouting.RowMajorEntry | robot_utils/matrix_multiplication.py:48-78 | the same for any row-major encodings of A and B |
| MatrixRouting.BlockEntry | robot_utils/matrix_multiplication.py:54-71 | the block of output (i, k) sums to row i of A times column k of B |
| MatrixNetwork.Eye | robot_utils/matrix_multiplication.py:12 | `np.eye(n)` is an n×n matrix |
| MatrixNetwork.ZeroMatrix | robot_utils/matrix_multiplication.py:13 | `np.zeros((rows, cols))` is a rows×cols matrix |
| MatrixNetwork.Output | robot_utils/matrix_multiplication.py:60-75 | the value of D has one entry per transform_c row |
| MatrixNetwork.WiredProduct | robot_utils/matrix_multiplication.py:8-78 | any network wired for D1×D2 by D2×D3 outputs the row-major A·B |
| MatrixNetwork.FlattenThreeRows | robot_utils/cross_product.py:57 | a three-row matrix flattens to its rows in order |
| MatrixNetwork.RowTimesColumnThree | robot_utils/cross_product.py:43-46 | a three-term row-by-column sum, written out |
| MatrixNetwork.Rows | robot_utils/matrix_multiplication.py:60-61 | reading an array row by row gives its entries |
| MatrixNetwork.RowsMatch | robot_utils/matrix_multiplication.py:48-57 | an array that agrees entry by entry with a specification is that specification |
| MatrixNetwork.BuildTransforms | robot_utils/matrix_multiplication.py:48-71 | the three construction loops yield exactly TransformA, TransformB and TransformC for the product |
| UtilsMatrixMultiplication.Build | robot_utils/matrix_multiplication.py:17-77 | ArithmeticError iff A.shape[1] ≠ B.shape[0], raised before any transform is built; otherwise node sizes A.size, B.size, A.size·B.shape[1] pairs, D1·D3 ensembles, a D1·D3-wide output node, and the product transforms |
| UtilsMatrixMultiplication.ZeroColumn | robot_utils/matrix_multiplication.py:13 | a zero column contributes nothing to any row |
| UtilsMatrixMultiplication.DefaultOutput | robot_utils/matrix_multiplication.py:12-17 | with the default operands (3×3 identity, 3×1 zeros) the network is 3×3·3×1 and outputs the zero 3-vector |
| ModelsMatrixMultiplication.Build | robot_models/matrix_multiplication.py:12-84 | both matrices required; ArithmeticError iff the inner dimensions differ; otherwise the same sizes and transforms, and no output node (the result lives in D) |
| ComputingElbowPosition.Wire | simulations/computing_elbow_position.py:26-99 | the script's loops over rotation_mat and the hard-coded 9×27 transformC equal the general 3×3·3×3 wiring |
| ComputingElbowPosition.ElbowRotation | simulations/computing_elbow_position.py:82-105 | with Ry routed as the left factor and Rx as the right, D holds Ry·Rx in row-major order |
| ComputeTargetPosition.Wire | simulations/compute_target_position.py:13-81 | the loops over Amat and Bmat and the Bmat.size-wide transformC equal the general 1×2·2×2 wiring |
| ComputeTargetPosition.BSizeWideSum | simulations/compute_target_position.py:79-81 | a summing transform B.size wide equals the general D1·D2·D3-wide one iff A has a single row |
| ComputeTargetPosition.TargetEntries | simulations/compute_target_position.py:69-89 | D has 2 entries, D[k] = A[0][0]·B[0][k] + A[0][1]·B[1][k] |
| ComputeTargetPosition.RowTimesSquare | simulations/compute_target_position.py:69-71 | the flattened 1×2·2×2 product, entry by entry |
| CrossProduct.DriveSingle | robot_utils/cross_product.py:48-55 | a slot fed by one connection receives that component times its weight |
| CrossProduct.Skew | robot_utils/cross_product.py:43-55 | the multiplier's in_A receives 9 values |
| CrossProduct.SkewEntries | robot_utils/cross_product.py:48-55 | slots 0, 4, 8 get 0; 7←+a0, 5←−a0, 2←+a1, 6←−a1, 3←+a2, 1←−a2: the operand is [[0,−a2,a1],[a2,0,−a0],[−a1,a0,0]] |
| CrossProduct.SkewSymmetric | robot_utils/cross_product.py:50-55 | the operand M satisfies Mᵀ = −M |
| CrossProduct.Cross | robot_utils/cross_product.py:17 | the reference cross product has 3 components |
| CrossProduct.Build | robot_utils/cross_product.py:40-59 | in_A, in_B and the output are 3 wide; the multiplier is wired for 3×3·3×1 |
| CrossProduct.ComputesCross | robot_utils/cross_product.py:17-61 | the output is a × b |
| CrossProduct.SkewTimesColumn | robot_utils/cross_product.py:43-57 | the skew matrix of a times b as a column is a × b |
| CrossProduct.AntiCommutes | robot_utils/cross_product.py:50-57 | swapping the inputs negates the output |
| CrossProduct.SelfIsZero | robot_utils/cross_product.py:50-57 | a × a = 0 |
| DotProduct.SlotRouteA | robot_utils/dot_product.py:48 | in_A is routed into 2·dimensions multiplier slots |
| DotProduct.SlotRouteB | robot_utils/dot_product.py:49 | in_B is routed into 2·dimensions multiplier slots |
| DotProduct.Build | robot_utils/dot_product.py:9-57 | defaults 100 neurons, radius 1, 2 dimensions; inputs `dimensions` wide, `dimensions` multipliers of 2·n_neurons, a scalar output, an all-ones summing row |
| DotProduct.Interleaved | robot_utils/dot_product.py:48-49 | the multiplier input is 2·dimensions wide |
| DotProduct.Value | robot_utils/dot_product.py:50-57 | the adder holds one value |
| DotProduct.InterleavedSlots | robot_utils/dot_product.py:48-49 | slot 2d receives a[d] and slot 2d+1 receives b[d], and nothing else reaches them |
| DotProduct.SumOfProducts | robot_utils/dot_product.py:54 | the ones row sums the products |
| DotProduct.PairedProducts | robot_utils/dot_product.py:38-50 | each multiplier decodes a[d]·b[d] |
| DotProduct.ComputesDot | robot_utils/dot_product.py:38-57 | the output is Σ a[d]·b[d] |
| DotProduct.DotSymmetric | robot_utils/dot_product.py:38-39 | the reference dot product is symmetric |
| DotProduct.Symmetric | robot_utils/dot_product.py:48-57 | swapping A and B leaves the output unchanged |
| VectorDifference.Build | robot_utils/vector_difference.py:43-66 | inputs, S and the output are `dimensions` wide; S has radius 2r; weights +1 for A and −1 for B |
| VectorDifference.Value | robot_utils/vector_difference.py:61-64 | S has one entry per component |
| VectorDifference.ComputesDifference | robot_utils/vector_difference.py:12-64 | output[i] = a[i] − b[i], the vector from B to A: adding it to B gives A |
| VectorDifference.EqualInputs | robot_utils/vector_difference.py:61-64 | equal inputs give the zero vector |
| VectorDifference.WithinDoubledRadius | robot_utils/vector_difference.py:46-59 | inputs within [−r, r] give differences within [−2r, 2r], the radius of S |
| RobotInterface.ChosenCallback | robot_interface/container.py:48-51 | `update` uses the explicit callback when given, else the default, and none when neither is set |
| RobotInterface.Lookup | robot_interface/container.py:64-69 | reading a key gives its value; an absent key raises KeyError |
| RobotInterface.StoreThenLookup | robot_interface/container.py:33-69 | after storing v under k, reading k gives v and every other key reads as before |
| RobotInterface.Container.Init | robot_interface/container.py:18-22 | a new container is empty, keeps its default callback and has started no callback |
| RobotInterface.Container.New | robot_interface/container.py:7-22 | construction fails with AssertionError iff the default callback is true but not callable |
| RobotInterface.Container.Add | robot_interface/container.py:24-33 | stores or overwrites the key's value, changes no other key and starts no callback |
| RobotInterface.Container.Update | robot_interface/container.py:35-51 | stores the value, then starts the chosen callback on (key, value); with no callback only the value changes; a true non-callable choice is a TypeError after the store |
| RobotInterface.Container.SetDefaultCallback | robot_interface/container.py:53-62 | the new default is stored even when the callable assertion then fails |
| RobotInterface.Container.Get | robot_interface/container.py:64-69 | `container[key]`: the stored value, or KeyError |
| RobotModels.FireKeepsSpacing | robot_models/motor.py:43-44 | a write allowed by the throttle keeps consecutive writes at least one period apart |
| RobotModels.Motor.constructor | robot_models/motor.py:11-29 | period = sampling_period·dt (0.1 s by default); previous_time = −period, so a first call at time 0 fires; nothing is registered |
| RobotModels.Motor.Output | robot_models/motor.py:31-45 | fires iff time − previous_time ≥ period; firing sets previous_time and updates the container; a call that does not fire changes nothing; writes stay a period apart |
| RobotModels.UpdateTable | robot_models/servo.py:48 | `np.abs(value - stored) >= delta` with numpy broadcasting; incompatible shapes raise ValueError |
| RobotModels.ZeroDeltaTable | robot_models/servo.py:27-50 | with delta = 0 every entry is true, so the servo writes exactly when the table is non-empty |
| RobotModels.EmptyServoNeverWrites | robot_models/servo.py:30-50 | a servo registered with an empty vector never writes |
| RobotModels.Servo.Init | robot_models/servo.py:25-33 | dt = 0.001 and delta = 0 whatever is passed; a zero vector of length size_in is registered; the node's width falls back to 1 only for size_in = 0 |
| RobotModels.Servo.New | robot_models/servo.py:8-30 | size_in = None fails with TypeError before anything is registered |
| RobotModels.Servo.Output | robot_models/servo.py:35-54 | fires iff the period has elapsed; KeyError or ValueError leave previous_time alone; otherwise previous_time advances even when nothing changed, and the raw value is stored iff some component moved by at least delta |
| RobotModels.Sensor.constructor | robot_models/sensor.py:19-22 | registers 0.0 under the sensor, changes no other key and has output width 1 |
| RobotModels.Sensor.Output | robot_models/sensor.py:24-35 | the container's current value for the sensor, at any time, without changing it |
| RobotModels.ControlSignal.constructor | robot_models/control_signal.py:22-26 | registers a zero vector of length size_out |
| RobotModels.ControlSignal.Output | robot_models/control_signal.py:28-41 | the container's value for the signal, or KeyError if it has none, without changing it |
| ActionSelection.Dominant | simulations/action_selection_and_execution.py:24 | `int(t % 3)` with floored modulo lies in 0..2 |
| ActionSelection.Pattern | simulations/action_selection_and_execution.py:25-26 | the contents after a step have the buffer's length |
| ActionSelection.ActionIterator.constructor | simulations/action_selection_and_execution.py:19-20 | `dimensions` actions, all 0.1 |
| ActionSelection.ActionIterator.Step | simulations/action_selection_and_execution.py:22-27 | resets every action to 0.1, sets ⌊t mod 3⌋ to 0.8 and returns the buffer itself; IndexError after the reset when the index is outside the buffer |
| ActionSelection.FloorShift | simulations/action_selection_and_execution.py:24 | floors move by whole shifts |
| ActionSelection.PeriodThree | simulations/action_selection_and_execution.py:24-26 | step(t) and step(t+3) leave the same contents |
| ActionSelection.OneDominant | simulations/action_selection_and_execution.py:25-26 | with at least three actions exactly one is 0.8 and the rest are 0.1 |
| ActionSelection.EachActionDominates | simulations/action_selection_and_execution.py:24 | each of the first three actions dominates at some time |
| SquareError.Abs | robot_control/arm.py:14-15 | `np.abs` is non-negative and equals x or −x |
| SquareError.SignedSquare | robot_control/arm.py:14-15 | sign(d)·d² is zero iff d = 0, has the sign of d and magnitude d² |
| SquareError.SquarePositive | robot_control/arm.py:15 | only zero squares to zero |
| SquareError.ScaledSignedSquare | simulations/2dof_with_finger.py:35-36 | a non-zero sensitivity keeps the error zero exactly at zero; a positive one keeps its sign |
| SquareError.ScaledError | simulations/2dof_with_finger.py:35-36 | the error on one axis is the sensitivity times the signed square, zero iff the axis agrees (non-zero sensitivity), signed like the difference (positive sensitivity) |
| SquareError.ProductZero | simulations/2dof_with_finger.py:35-36 | a product vanishes iff a factor does |
| SquareError.SquareOfNegation | robot_control/head.py:18 | (x0−x1)² = (x1−x0)² |
| SquareError.SignedSquareOdd | robot_control/arm.py:18-24 | reversing the difference negates the signed square |
| SquareError.SignedSquareIncreasing | simulations/1dof.py:26 | the signed square is strictly increasing |
| SquareError.SquareLess | simulations/1dof.py:26 | squaring is strictly increasing on positives |
| SquareError.SignedSquareInjective | simulations/1dof.py:26 | equal corrections come only from equal differences |
| ArmControl.AlphaError | robot_control/arm.py:12-15 | sign(t−c)·(t−c)²: zero iff t = c, positive iff t > c |
| ArmControl.BetaError | robot_control/arm.py:18-24 | always the negation of `_alpha_error`: zero iff t = c, positive iff c > t |
| ArmControl.ErrorsSwap | robot_control/arm.py:12-24 | swapping target and current negates both functions |
| ArmControl.ValidatePositions | robot_control/arm.py:33-154 | AssertionError iff some position lacks 3 components; a warning for a position iff it passed its assertion and has a component outside ±length_radius; warnings come in shoulder, elbow, hand order and stop at the first failed assertion |
| ArmControl.InRangeArmIsQuiet | robot_control/arm.py:126-154 | three-component positions inside the radius pass silently |
| HeadControl.HError | robot_control/head.py:9-18 | zero iff target equals current, positive iff target > current |
| HeadControl.EError | robot_control/head.py:21-32 | each component is zero iff its (head-adjusted) target equals the current value, positive iff it is above |
| HeadControl.EErrorAxesIndependent | robot_control/head.py:30-32 | the vertical component ignores x[0], x[2] and the head position x[4]; the horizontal one ignores x[1], x[3] |
| HeadControl.EErrorFollowsHead | robot_control/head.py:30-31 | moving head and horizontal target together leaves the error unchanged |
| HeadControl.ValidateLipOffset | robot_control/head.py:36-117 | AssertionError iff the offset lacks 3 components; otherwise a warning iff a component lies outside ±length_radius |
| PositionChecks.CheckVector | robot_control/arm.py:126-133 | one position check: rejected iff not 3 components, else warned iff some component is outside the radius |
| PositionChecks.LargerRadiusIsQuiet | robot_control/arm.py:128-129 | a position that passes with a radius passes with any larger one |
| TwoDofWithFinger.Error | simulations/2dof_with_finger.py:20-36 | each component is its sensitivity times the signed square of its axis difference; zero iff the axis agrees (non-zero sensitivity); signed like the difference (positive sensitivity) |
| TwoDofWithFinger.DefaultSensitivities | simulations/2dof_with_finger.py:20 | with the defaults the components are the plain signed squares |
| TwoDofWithFinger.AxesIndependent | simulations/2dof_with_finger.py:35-36 | each component depends only on its own axis |
| TwoDofWithFinger.FError | simulations/2dof_with_finger.py:38-39 | the signed square of x1 − x0, zero iff x0 = x1 |
| TwoDofWithFinger.Inhibit | simulations/2dof_with_finger.py:87-88 | 2·|x0|: non-negative, zero iff x0 = 0, ignoring the other entries |
| TwoDof.Error | simulations/2dof.py:20-36 | the pair of sensitivity-scaled signed squares, (0, 0) iff both axes agree (non-zero sensitivities) |
| TwoDof.AxesIndependent | simulations/2dof.py:20-36 | each component depends only on its own axis; the defaults leave the squares unscaled |
| OneDofWithFinger.Error | simulations/1dof_with_finger.py:21-30 | zero iff x0 = x1, positive iff target x1 > current x0, magnitude (x1−x0)² |
| OneDofWithFinger.ErrorSwap | simulations/1dof_with_finger.py:30 | swapping the entries negates the error |
| OneDofWithFinger.Inhibit | simulations/1dof_with_finger.py:33-34 | 2·|x0|: non-negative, zero iff x0 = 0 |
| OneDof.Error | simulations/1dof.py:17-26 | the signed square of target − current: positive iff x1 > x0, negative iff x1 < x0 |
| OneDof.ErrorIncreasesWithTarget | simulations/1dof.py:26 | a higher target gives a strictly larger error |
| OneDofSquareError.Error | Simulations/1dof.py:18-27 | `**` binds before `*`: zero iff x0 = x1, magnitude (x0−x1)² |
| OneDofSquareError.ErrorSwap | Simulations/1dof.py:27 | swapping the entries negates the error |
| PyStrings.LineLength | furhatClass.py:40 | the first line of a text ends at its first line break |
| PyStrings.LinesHaveNoBreaks | furhatClass.py:40 | no line of `splitlines()` holds a line break |
| PyStrings.SplitLinesCons | furhatClass.py:40 | a line followed by "\n" comes off the front of the text |
| PyStrings.SplitLinesSingle | furhatClass.py:40 | a break-free text is one line |
| PyStrings.LineLengthOf | furhatClass.py:40 | the first line of line + break is that line |
| PyStrings.SpaceLength | furhatClass.py:45 | leading whitespace ends at a non-space |
| PyStrings.WordLength | furhatClass.py:45 | a word ends at whitespace |
| PyStrings.WordsAreWords | furhatClass.py:45 | every word of `split()` is non-empty and holds no whitespace |
| PyStrings.WordLengthOf | furhatClass.py:45 | a word followed by whitespace is read whole |
| PyStrings.LeadingSpace | furhatClass.py:45 | leading whitespace does not count |
| PyStrings.SplitWordsCons | furhatClass.py:45 | a word followed by a space comes off the front of the text |
| PyStrings.IndexOf | furhatClass.py:96-100 | the position of the first separator, or the length when there is none |
| PyStrings.SplitOn | furhatClass.py:96-100 | `split(sep)` always gives at least one piece |
| PyStrings.JoinSplit | furhatClass.py:96-100 | joining the pieces with the separator restores the text |
| PyStrings.SplitJoin | furhatClass.py:96-100 | separator-free pieces joined by the separator split back into them |
| PyStrings.SplitPair | furhatClass.py:100 | "key:value" with no other ':' splits into key and value |
| PyStrings.IndexOfAbsent | furhatClass.py:96-100 | without the separator there is one piece |
| PyStrings.IndexOfFirst | furhatClass.py:96-100 | the first separator ends the first piece |
| PyStrings.Unwrap | furhatClass.py:101-150 | `s[1:-1]` drops two characters, and gives "" for strings shorter than two |
| PyStrings.UnwrapQuoted | furhatClass.py:101-150 | unwrapping undoes quoting |
| FurhatBridge.Read | furhatClass.py:34-52 | `read`: "No event" when nothing was received, otherwise the event of the first announcing line |
| FurhatBridge.ScanLine | furhatClass.py:45-52 | one pass of the scanning loop decides exactly whether its line announces an event, and returns that event |
| FurhatBridge.FirstEventFacts | furhatClass.py:44-52 | scanning from any line gives an event iff a later line has ≥ 3 words starting EVENT/VENT/ENT in a message of ≥ 2 lines; it is named by the second word of the first such line and carries the second line; otherwise None |
| FurhatBridge.ReadFindsFirstEvent | furhatClass.py:40-52 | the same for a whole received message |
| FurhatBridge.OneLineIsNothing | furhatClass.py:46 | a one-line message never yields an event |
| FurhatBridge.ReadsEventLine | furhatClass.py:40-52 | "EVENT name id" followed by a payload line reads as [name, payload] |
| FurhatBridge.EventLineHasNoBreaks | furhatClass.py:40 | an event line built from break-free words is one line |
| FurhatBridge.ThreeWords | furhatClass.py:45 | three space-separated words split back into them |
| FurhatBridge.WordThenTwo | furhatClass.py:45 | a word, a space and two more words split into the three |
| FurhatBridge.SplitWordsSingle | furhatClass.py:45 | a single word splits to itself |
| FurhatBridge.Effect | furhatClass.py:98-154 | an item fails (IndexError) iff an agent or display key has no value, and then changes nothing |
| FurhatBridge.ParseItems | furhatClass.py:96-98 | one parsed item per comma-separated piece |
| FurhatBridge.EffectsStep | furhatClass.py:98-154 | the item loop's invariant carried past one successful item |
| FurhatBridge.Commands | furhatClass.py:87-161 | one command per received message |
| FurhatBridge.HandleFrom | furhatClass.py:87-186 | an IndexError never escapes the main loop |
| FurhatBridge.HandleFromStep | furhatClass.py:87-186 | the main loop's invariant carried past one message |
| FurhatBridge.Bridge.constructor | furhatClass.py:82 | starts uninterrupted, with nothing written |
| FurhatBridge.Bridge.Write | furhatClass.py:110-164 | one write appends one byte on one line |
| FurhatBridge.Bridge.WriteBurst | furhatClass.py:110-117 | one byte to each of ser1 … ser4, in order |
| FurhatBridge.Bridge.HandleItemOf | furhatClass.py:99-154 | one item moves the flag and writes as Effect says, and reports the IndexError |
| FurhatBridge.Bridge.HandleItemAt | furhatClass.py:98-154 | one pass of the item loop keeps its invariant, or ends it on failure with the final state |
| FurhatBridge.Bridge.HandleItemList | furhatClass.py:96-186 | the items in order, with an IndexError skipping the rest of the message while earlier effects persist |
| FurhatBridge.Bridge.HandleMessage | furhatClass.py:93-184 | one message: speech items, or a stop burst that sets `interrupted`, or nothing |
| FurhatBridge.Bridge.Run | furhatClass.py:87-186 | the main loop over the received messages ends in the state and the write log that Session specifies |
| FurhatBridge.Bridge.Step | furhatClass.py:89-186 | one pass of the main loop: read, then react |
| FurhatBridge.Bridge.Advance | furhatClass.py:87-186 | one pass of the main loop keeps its invariant |
| FurhatBridge.Bridge.RunCommands | furhatClass.py:87-186 | the loop of Run ends in the specified state and log |
| FurhatBridge.BurstsAppend | furhatClass.py:110-171 | whole bursts followed by whole bursts are whole bursts |
| FurhatBridge.ModPeriod | furhatClass.py:110-117 | shifting by whole bursts keeps the position within a burst |
| FurhatBridge.EffectBursts | furhatClass.py:107-148 | an item writes nothing or one whole burst |
| FurhatBridge.BurstIsBurst | furhatClass.py:110-117 | four bytes of '0', '1' or '2' to ser1 … ser4 in order are one burst |
| FurhatBridge.EffectsFromBursts | furhatClass.py:98-154 | a speech message writes whole bursts |
| FurhatBridge.ReactBursts | furhatClass.py:93-184 | any message writes whole bursts |
| FurhatBridge.HandleFromBursts | furhatClass.py:87-186 | any run of the loop writes whole bursts |
| FurhatBridge.SessionBursts | furhatClass.py:87-186 | whatever the server sends, the serial lines receive only whole bursts of '0', '1', '2', one byte per line in port order |
| FurhatBridge.InterruptedItemIsSilent | furhatClass.py:107-153 | while interrupted no item writes, and only a resume display clears the flag |
| FurhatBridge.InterruptedStaysSilent | furhatClass.py:107-153 | a speech message with no resume display writes nothing while interrupted and leaves it interrupted |
| FurhatBridge.FailureSkipsRest | furhatClass.py:92-186 | an IndexError at an item keeps what the earlier items did and skips everything after it |
| FurhatBridge.PrefixUpToFailure | furhatClass.py:98-186 | the same, from any item before the failure |
| FurhatBridge.StopInterrupts | furhatClass.py:161-171 | a stop event sets `interrupted` and writes 50, 50, 48, 48, whatever the state |
| FurhatBridge.QuotedAgent | furhatClass.py:100-104 | an item `"agent":"<name>"` is read as that agent |
| FurhatBridge.QuotedDisplay | furhatClass.py:100-150 | an item `"display":"<text>"` is read as that text |
| FurhatBridge.AgentWithoutValue | furhatClass.py:100-103 | an `"agent"` item without a value raises IndexError |
| FurhatBridge.QuotedPair | furhatClass.py:100-103 | a quoted key:value pair unwraps to key and value |
| FurhatBridge.QuotedSplit | furhatClass.py:100 | a quoted key:value pair splits at its one ':' |

## Left out

- Network dynamics: ensembles, neurons, encoders, synapses, radii as representable ranges, and the basal ganglia and thalamus circuits exist only as simulator behaviour. The model stops at the value a network settles on, computed exactly.
- The `n_neurons`, `radius`, `label` and `seed` arguments are carried where the code stores them but have no further meaning here.
- The `print` calls of robot_models/matrix_multiplication.py (lines 67-70, 85-86), compute_target_position.py and furhatClass.py are console output only.
- The rotation-matrix lambdas (cos, sin) and `arctan2` are transcendental floating-point numerics. robot_utils/differentiator.py is continuous-time filtering.
- Floating-point rounding is not modelled, because values are exact reals. An example is `t % 3` rounding up to 3.0 for tiny negative t. NaN is not modelled either, so `np.sign` of NaN is outside the model.
- `ContainerThread` and `thread.start_new_thread`: a started callback is recorded as a (callback, key, value) entry rather than run concurrently.
- The `callable` check is modelled by classifying callback arguments as falsy, callable or non-callable. Python's full truthiness rules are not modelled.
- RobotModels.Servo.Output: `delta_step_value` is computed and discarded by the code. The model does not compute it, so a KeyError that its indexing could raise is not modelled.
- RobotModels.Servo.Output: requires values as wide as the node's size_in, which nengo enforces before calling the node.
- RobotModels.Motor.Output: stores any value. The node's `size_in=1` is nengo's concern.
- The `np.asarray` conversion of non-array positions is not modelled. The `.size` assertion is taken as "three components" on flat vectors. Nested lists of total size 3 are outside the model.
- The socket connect, send and receive, the serial port opening, the sleeps, the `AlanRobot` start-up, `send`, and the CONNECTED print loop in `read` are I/O. The socket is replaced by the sequence of received messages (None standing for nothing received), and the serial lines by a write log.
- UTF-8 decoding of received bytes and the 1000-byte receive limit: messages are given as decoded strings.
- The unused `agent`, `event`, `motorMovementRobot1/2` and `close` variables of the main loop have no effect on the writes or the flag.
- robot_control/robot.py, robot_control/action.py, robot_interface/alan_robot.py and robot_interface/simulation_control.py are not part of this model. They hold network construction and simulator wrappers.
