# gridsim simulation core in Dafny

This project models the engine of gridsim, a discrete-time grid world in which robots
broadcast messages to each other, and proves properties of that model.

- **World** (`world.dfy`, module `Worlds`) is a class with the source's state:
  - the grid dimensions;
  - the robots;
  - the tick counter;
  - the current environment;
  - the RGBA tag overlay, held in an `array2`.

  Its operations are:
  - `Step`: update every robot, run the broadcast pass, then advance the clock by one;
  - `AddRobot` and `AddEnvironment`;
  - `Communicate`: the broadcast pass;
  - `GetTime` and `GetDimensions`;
  - `Tag` and `CountTags`.
- **Communication** (`communication.dfy`) states the broadcast pass over robots as values. For every ordered pair of distinct robots, the transmitter's message reaches the receiver when:
  - the message is not null;
  - the receiver's kind is a subkind of the message's receiver kind;
  - both robots' `comm_criteria` accept the squared distance between them.

  Each delivery is one `receive_msg` entry in the receiver's inbox and one `msg_received` ack for the sender. `World.Communicate` is proved to compute exactly `Communicated(old(robots))`. The lemmas about `Communicated` give:
  - the delivered pairs, as an if-and-only-if;
  - exactly-once delivery;
  - no self-delivery;
  - silence for null messages;
  - acks equal to the number of receivers.
- **Tags** (`tags.dfy`) is the overlay as a grid of rows. It covers tag validation, writing only the addressed cell, clearing, and counting tagged cells. `World.Tag` is proved against `TagGrid`.
- **Messages** (`message.py`'s `Message`, module `Messages`) has two parts:
  - the constructor's null/non-null decision and its two TypeErrors, in order;
  - `get`, `set`, `sender` and truthiness.

  The class `Message` is the object whose payload `Set` changes in place.
- **Environments** covers three things:
  - the null environment, black everywhere;
  - the image environment, a bounds-checked W x H grid lookup that gives no data outside;
  - the `is_in_viewer` flag and `get_viewer_img`.
- **GridRobots** covers the five direction commands, `set_direction` (validated and persistent), the `move` target, and the squared-range `comm_criteria`.
- **Kinds** models the robot class hierarchy that `isinstance` and `issubclass` inspect, as single-inheritance chains. A kind is a chain of subclasses ending at the top kind `Robot`.

Robots inside a world are values of the datatype `Communication.RobotState`. A robot is identified by its id, and ids are distinct in a world. The robot callbacks the world calls become parts of that value:
- `comm_criteria` is the field `accepts`;
- `receive_msg` and `msg_received` are recorded in `inbox` and `acks`;
- `get_tx_message` is the field `txMsg`;
- `add_to_world` is `Bind`.

A robot's `update()` is a parameter of `Step`.

## Model

| member | source | states |
|---|---|---|
| Worlds.World.constructor | gridsim/world.py:42-70 | The clock starts at 0. The overlay is a fresh, untagged height x width grid. The environment is the null one, or a fresh image environment when an image is given, and it is not in a viewer. The robots are those given, added in order after the environment. |
| Worlds.World.Step | gridsim/world.py:72-80 | Every robot is updated first, then the broadcast pass runs on the updated robots, then the tick rises by exactly one. The world invariant is kept. |
| Worlds.World.AddRobots | gridsim/world.py:70 | The robots given to the constructor are added one after the other, in order. |
| Worlds.World.AddRobot | gridsim/world.py:82-93 | The new robot list is `Added(old robots, r)`: the robot is bound to the grid and environment, and it is added once (the group is a set). Adding a robot that is already in the world leaves the robots unchanged. |
| Worlds.Added | gridsim/world.py:82-93 | A new id grows the list by one, and the new last robot is the argument bound to the world. An existing id does not grow the list: the robot already there keeps its state and is only re-bound. Distinct ids are preserved. No other robot changes. |
| Worlds.ReAddChangesNothing | gridsim/world.py:92-93 | Adding a robot that is already in the world and already bound to it changes nothing. |
| Worlds.World.AddEnvironment | gridsim/world.py:95-117 | A fresh image environment replaces the old one. Every robot now refers to it, and nothing else about the robots changes. |
| Worlds.World.Communicate | gridsim/world.py:141-161 | The nested loop over (transmitter, receiver) pairs leaves the robots equal to `Communicated(old(robots))`. |
| Worlds.Broadcast | gridsim/world.py:151-161 | The inner loop, for one non-null transmitter, turns the part-way state before it into the part-way state after it. |
| Communication.DeliveredIff | gridsim/world.py:149-161 | After the pass, `rx` holds exactly one more delivery from `tx` when `Delivers` holds, and none otherwise. `Delivers` means: the message is non-null, `rx` is not `tx`, `rx`'s kind is a subkind of the receiver kind, and both criteria accept the distance. Every new entry from `tx` is the `receive_msg` call with `tx`'s id, `tx`'s message and their squared distance, and a qualifying pair's entry is among the new ones. |
| Communication.InboundFromOnce | gridsim/world.py:149-159 | Among the deliveries from transmitters 0..n-1, transmitter `tx` accounts for exactly one if it qualifies and none otherwise. |
| Communication.NoSelfDelivery | gridsim/world.py:154 | A robot never receives its own broadcast. |
| Communication.AcksCountReceivers | gridsim/world.py:159-161 | The acks a sender gains equal the size of the set of robots its broadcast reaches. By `DeliveredIff`, each of those robots gains exactly one delivery of it. |
| Communication.ReceiverCountIsCardinality | gridsim/world.py:152-161 | The running ack count equals the cardinality of the receiver set. |
| Communication.NullMessagesAreSilent | gridsim/world.py:150-151 | When no robot broadcasts, the pass changes no robot. |
| Communication.SilentSenderReachesNone | gridsim/world.py:150-151 | A transmitter whose message is null reaches no receiver. |
| Communication.MutualRangeScenario | gridsim/world.py:149-161 | Two robots at squared distance 9 that both accept up to 25: one delivery and one ack, and nothing else. |
| Communication.OneSidedRefusalScenario | gridsim/world.py:156-157 | The same pair, with a receiver that accepts only up to 4: no delivery at all. |
| Worlds.World.HasNewEnvironment | gridsim/world.py:119-129 | True exactly while the current environment has not been taken by a viewer. The constructor and `AddEnvironment` leave it true, and the environment's `AddToViewer` makes it false. |
| Worlds.World.GetTime | gridsim/world.py:174-184 | The number of ticks: the constructor sets it to 0 and each `Step` raises it by exactly one. |
| Worlds.GridRobotsReachWithinRange | gridsim/grid_robot.py:90-105 | For a non-null broadcast to a robot of the right kind, when both robots use `GridRobot`'s `comm_criteria`, the pair qualifies exactly when the squared distance is within both squared ranges. |
| Worlds.World.GetDimensions | gridsim/world.py:163-172 | (width, height), which are also the overlay's two dimensions. |
| Worlds.World.Tag | gridsim/world.py:197-231 | The overlay becomes `TagGrid(old overlay, ...)` when that succeeds. On an error it returns that error and leaves the overlay unchanged. |
| Tags.TagGrid | gridsim/world.py:218-231 | The colour is checked before the position. A valid in-bounds tag writes (r,g,b,255), and None clears the cell to all zeros. No other cell changes. The error cases are exactly an invalid colour, then an out-of-bounds position. |
| Worlds.World.CountTags | gridsim/world.py:233-247 | The count never exceeds width x height. It is zero exactly when no cell has non-zero alpha. |
| Tags.CountWrite | gridsim/world.py:244-247 | Writing one cell changes the count only by what that cell was and what it becomes. |
| Tags.TagUntaggedCountsOne | gridsim/world.py:223-226 | Tagging an untagged cell with a valid colour succeeds and raises the count by one. |
| Tags.ClearCount | gridsim/world.py:218-220 | Clearing a tagged cell lowers the count by one, and clearing an untagged cell leaves it unchanged. |
| Tags.CountBound | gridsim/world.py:244-247 | No more cells are tagged than the grid has. |
| Tags.CountZero | gridsim/world.py:244-247 | The count is zero exactly when no cell is tagged. |
| Tags.TagThenClear | gridsim/world.py:218-226 | Tagging a cell and then clearing it leaves the cell untagged and every other cell as it was. |
| Messages.Construct | gridsim/message.py:47-70 | No sender and a falsy payload give the null message, whatever the receiver kind. Otherwise a non-robot receiver class raises TypeError first, and a payload that is not a string-keyed dictionary raises the second TypeError. A populated message stores the sender, receiver kind and entries unchanged. |
| Messages.Truthy | gridsim/message.py:131-132 | A message is truthy exactly when it has a sender or a non-empty payload. A falsy message is the null message. |
| Messages.Sender | gridsim/message.py:121-129 | The null message has no sender. |
| Messages.SenderRoundTrip | gridsim/message.py:58-70 | A built message returns the sender it was built with. |
| Messages.Get | gridsim/message.py:72-94 | No key gives the whole payload. A present key gives its value, and an absent key gives a KeyError naming it. |
| Messages.Put | gridsim/message.py:96-119 | Refused exactly on the null message. Otherwise the key reads back as the new value, every other key reads as before, and the sender and receiver kind are kept. |
| Messages.Message.Set | gridsim/message.py:96-119 | The object's new state is `Put` of its old state. On the null message it raises ValueError and changes nothing. |
| Messages.Message.Create | gridsim/message.py:47-70 | A fresh object whose state is `Construct`'s result, or `Construct`'s error. |
| Messages.DefaultReachesEveryKind | gridsim/message.py:49 | A populated message with the default receiver kind may be received by a robot of any kind. |
| Kinds.RobotIsTop | gridsim/message.py:49 | Every kind is a subkind of `Robot`. |
| Kinds.RobotClassIff | gridsim/message.py:60-61 | The receiver-class check passes exactly for robot kinds. |
| Environments.Environment.Get | gridsim/environment.py:18-119 | The null environment answers black at every position. An image answers `Some` exactly in bounds, giving the pixel at `[y][x]`, and `None` outside. |
| Environments.NullIsFalsy | gridsim/environment.py:50-52 | The null environment is falsy, and it answers black at every position. |
| Environments.ImageIsTruthy | gridsim/environment.py:95-97 | An image environment is truthy, and it answers no data just outside its grid. |
| Environments.Environment.AddToViewer | gridsim/environment.py:35-138 | Both `Environment.add_to_viewer` (lines 35-48) and `ImageEnvironment.add_to_viewer` (lines 121-138): the viewer flag is up afterwards, and the picture has the window's size. |
| Environments.Environment.GetViewerImg | gridsim/environment.py:54-67 | Gives the picture when the flag is up and a ValueError otherwise. |
| Environments.Environment.Image | gridsim/environment.py:75-93 | The image environment holds the given W x H grid and starts with the flag down. |
| Environments.Environment.Null | gridsim/environment.py:13-16 | The null environment starts with the flag down. |
| Environments.UniformFieldScenario | gridsim/environment.py:115-119 | A uniform 10 x 10 image answers its colour at (5,5) and no data at (15,5). |
| GridRobots.GridRobot.constructor | gridsim/grid_robot.py:37-44 | A new robot has the command `stay`, and its default range is 5. |
| GridRobots.GridRobot.SetDirection | gridsim/grid_robot.py:46-66 | A listed direction becomes the command. Anything else raises ValueError and leaves the command as it was. |
| GridRobots.GridRobot.Move | gridsim/grid_robot.py:68-88 | The target is at most one cardinal step away. It is the current cell exactly when staying. The step taken is the one the command names. |
| GridRobots.MoveTargets | gridsim/grid_robot.py:78-88 | up gives (x, y-1), down gives (x, y+1), right gives (x+1, y), left gives (x-1, y), and stay gives (x, y). |
| GridRobots.MoveInjective | gridsim/grid_robot.py:78-88 | From the same cell, equal targets mean equal commands. |
| GridRobots.GridRobot.CommCriteria | gridsim/grid_robot.py:90-105 | A squared distance of 0 or less is always accepted. |
| GridRobots.CommCriteriaMonotone | gridsim/grid_robot.py:105 | Accepting a squared distance means accepting every smaller one. |
| GridRobots.DefaultRangeThreshold | gridsim/grid_robot.py:37 | With the default range of 5, a squared distance of 25 is accepted and 26 is refused. |
| GridRobots.ErrorTextAsWrittenLosesDirection | gridsim/grid_robot.py:66 | As written, the ValueError text is the same for every refused direction. |
| GridRobots.ErrorText | gridsim/grid_robot.py:66 | The corrected text quotes the refused direction between the fixed prefix and a closing quote. |

## Left out

- `gridsim/robot.py` is not part of this model. The robot's 32-bit random id becomes a parameter, bounded below 2^32 for a `GridRobot`. `init()` and the print placeholders are left out.
- Robots' `update`, `add_to_world` and `distance` are not in the modelled source. `update` is a function parameter of `Step`. It sees only its own robot's state and may not change the robot's id, kind or binding. `add_to_world` is `Bind`.
- Distance is the squared integer Euclidean distance between cells, and both robots' criteria receive it. The source's floating-point distance is not modelled.
- `comm_range` is an exact real, not a float.
- The pygame sprite group is a sequence of robots with distinct ids. Membership is decided by id, which stands for the object identity the group uses. Its iteration order is not modelled. The pass's results are stated per robot, and each inbox lists deliveries in the sequence's order.
- `receive_msg` and `msg_received` are modelled as recording only: they append to the inbox and raise the ack counter. The pass reads positions, outgoing messages and criteria from the robots as they were when it started. A callback that changes its robot's outgoing message, position or criteria during the pass, which the source would let later pairs of the same pass see, is not modelled.
- Image file loading, path resolution and nearest-neighbour resizing are left out. An image environment is given the grid already scaled to W x H.
- The viewer's pygame Surface is represented only by its size. Filling it and scaling it are left out.
- The viewer, the logger and the configuration parser are left out because they are display and file I/O.
- The shared mutable default `content={}` of the message constructor is left out. Every message owns its payload.
- The environment's `get` for the null environment answers black at every position, including positions outside the grid, because that is what the code does. Only the image environment answers "no data" outside the grid.
- Only single inheritance among robot classes is modelled. A class with several robot bases, such as one deriving from two robot classes, is not: in the source `isinstance` accepts it for each base, but here a kind has exactly one base.
- Worlds.World.Tag, Tags.TagGrid: clearing a tag requires an in-bounds position. The source does not check bounds when clearing, and numpy's negative indexing wraps around.
- A colour has to be a sequence of three integers. Other Python objects passed as a colour, and the tuple concatenation with the alpha channel, are left out.
- `get_environment` and `get_robots` only return fields, which are public in the model. `allow_collisions` is stored and not used, as in the source.
- Messages.Construct: payload values are a small datatype of common Python values, not arbitrary objects. A non-dictionary payload is represented only by its truthiness.

## Findings

| source | as written | input that shows it | evidently intended | confidence | as-written member | corrected member |
|---|---|---|---|---|---|---|
| gridsim/grid_robot.py:66 | The ValueError text `'Invalid movement direction "{dir}"'` has no `f` prefix, so the braces are printed literally | `set_direction("north")` and `set_direction("south")` produce the same text | The message names the refused direction | not executed | GridRobots.ErrorTextAsWrittenLosesDirection | GridRobots.ErrorText |
