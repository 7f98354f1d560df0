# Room walk-through and documentation navigation, modelled in Dafny

This project models two scripts of a personal site.

**The "about" walk-through** (`fun/about/scripts/index.js`) is a first-person walk through a grid of rooms.
- `createRooms` lays out a `cols` x `rows` grid of rooms centred on the origin. Each room gets four wall boxes (north, south, west, east) and a floor label "Room N", numbered row by row.
- `checkCollision` tests the player's square footprint against every wall box.
- Each animation frame turns the player and proposes a step. The step is resolved axis by axis, so blocking one axis never cancels the other.
- The frame also runs the toy jump: start speed 0.2, gravity 0.01, ground at 0.5.
- Key presses flip the flashlight (`f`/`F`) and cycle the three camera presets (`c`/`C`).
- The flashlight cone is clamped into [π/20, π/2.5].

**The documentation navigation** (`fun/doc/scripts/initNav.js`) builds one navigation item per topic.
- Each item carries the list of subtopics whose `topicId` names that topic, in table order, duplicates kept.
- Each subtopic link is relative. If the page's path has a whole `topics` piece among its non-empty `/`-separated pieces, the link is `../<topic>/<file>`. Otherwise it is `../doc/topics/<topic>/<file>`.
- A click inside the topic list on an element whose `data-type` is `subtopic` points the content frame at `topics/<topic>/<file>`. The only `data-type` the script itself sets is `topic`, on each topic's label (`fun/doc/scripts/initNav.js:80`). Its subtopic entries carry no `data-type`, `data-topic` or `data-filename` attribute (`fun/doc/scripts/initNav.js:43-54`). So, as written, the script's own navigation never retargets the frame: a click on a subtopic link follows its `href`.

Layout:
- `options.dfy`: `Options` (a possibly absent value).
- `decimal.dfy`: `Decimal`, the decimal rendering of a room number, with its parser.
- `layout.dfy`: `RoomLayout`, the wall and label lists as functions of the grid.
- `collision.dfy`: `Collision`.
- `motion.dfy`: `Motion`, the per-frame player step and the jump automaton.
- `modes.dfy`: `Modes`, the camera preset, flashlight and focus clamp.
- `world.dfy`: `Walkthrough`. The class `World` holds the script's module-level state, and its methods are the loops and handlers that update it.
- `filtering.dfy`: `Filtering` (array filter).
- `paths.dfy`: `PathSegments`, JavaScript's `split('/')` and `join('/')`.
- `nav.dfy`: `DocNav`.

Positions and speeds are exact `real`s. The sine and cosine of the heading are inputs to a frame.

## Model

| member | source | states |
|---|---|---|
| RoomLayout.DefaultLayout | fun/about/scripts/index.js:104-146 | a layout call with no options builds one room of size 10 at the origin, with walls at z = -5, z = 5, x = -5 and x = 5 |
| RoomLayout.LayoutWallsAt | fun/about/scripts/index.js:128-140 | the layout has exactly 4·rows·cols walls; a non-positive row or column count gives none |
| RoomLayout.LayoutWallAt | fun/about/scripts/index.js:128-140 | the walls of room (r, c) are entries 4(r·cols+c) .. 4(r·cols+c)+3, in creation order |
| RoomLayout.LayoutEntryOfRoom | fun/about/scripts/index.js:128-140 | every entry of the layout is a wall of some room of the grid |
| RoomLayout.RoomWallInLayout | fun/about/scripts/index.js:128-140 | every wall of every room of the grid is in the layout |
| RoomLayout.LayoutRoomWalls | fun/about/scripts/index.js:130-140 | the four walls of room (r, c) stand in the layout at the room centre ∓ half the room size. North and south span the room width, west and east span its depth. All have height 2 centred at y = 1 and thickness 0.5 |
| RoomLayout.LayoutLabelsNumbered | fun/about/scripts/index.js:128-143 | there is one label per room, and the k-th label reads "Room k+1" |
| RoomLayout.LayoutLabelAt | fun/about/scripts/index.js:130-143 | the label of room (r, c) is entry r·cols+c; it lies on that room's centre and reads "Room r·cols+c+1" |
| RoomLayout.LayoutLabelsDistinct | fun/about/scripts/index.js:143 | no two labels of a layout read the same |
| RoomLayout.CentresSymmetric | fun/about/scripts/index.js:112-131 | rooms in mirror-image columns (rows) have centres of opposite sign: the grid is centred on the origin |
| RoomLayout.RoomMirror | fun/about/scripts/index.js:130-140 | reflecting a room's walls in x (z) gives the walls of the mirror-column (mirror-row) room |
| RoomLayout.LayoutWallsMembership | fun/about/scripts/index.js:128-140 | a wall is in the layout exactly when it is a wall of some room of the grid |
| RoomLayout.LayoutSymmetric | fun/about/scripts/index.js:112-140 | the layout is symmetric about the origin on both axes |
| Decimal.ToDecimal | fun/about/scripts/index.js:143 | a room number renders as a non-empty string of digits with no leading zero |
| Decimal.ParseToDecimal | fun/about/scripts/index.js:143 | reading the rendered number back gives the number: the rendering loses nothing |
| Decimal.ToDecimalInjective | fun/about/scripts/index.js:143 | different numbers render differently |
| Collision.BoundaryIsFree | fun/about/scripts/index.js:153-165 | `Collides` (some wall `Blocks` the point, by overlap within half the wall's scale plus the player radius 0.5 on both axes) is strict: a wall of scale 4 at the origin blocks at x = 2.4 but not at 2.5 or 2.6, and an empty wall list never blocks |
| Collision.CollidesAppend | fun/about/scripts/index.js:153-165 | a wall list blocks a point exactly when one of its two parts does |
| Collision.RoomWallsOnLines | fun/about/scripts/index.js:130-140 | every room wall lies on one of the grid lines k·size − cols·size/2 (or the same in z) |
| Collision.FreeAwayFromLines | fun/about/scripts/index.js:128-165 | a point at least 0.75 from every grid line is blocked by no wall of the layout |
| Collision.RoomCentreFree | fun/about/scripts/index.js:128-165 | in a grid of rooms larger than 1.5, every room centre is free |
| Walkthrough.InitialPositionFree | fun/about/scripts/index.js:42-147 | the start position (-20, -20) is free in the initial 2 x 2 layout of size 30 |
| Walkthrough.World.constructor | fun/about/scripts/index.js:26-190 | the loaded page state: player at (-20, 0.5, -20) not jumping, no keys, camera preset 1, flashlight off, focus π/2, and the 2 x 2 layout of size 30 with the player not colliding |
| Walkthrough.World.CreateWall | fun/about/scripts/index.js:63-72 | appends one wall box to the wall list |
| Walkthrough.World.AddLabelToFloor | fun/about/scripts/index.js:75-101 | appends one floor label |
| Walkthrough.World.CreateRooms | fun/about/scripts/index.js:104-146 | the nested row/column loops replace the walls and labels by exactly the layout of the resolved grid, with no trace of the earlier layout |
| Walkthrough.World.BuildRow | fun/about/scripts/index.js:129-144 | the column loop appends the walls and labels of one row's rooms, left to right |
| Walkthrough.World.BuildRoom | fun/about/scripts/index.js:129-143 | one loop pass appends the room's four walls, then its label |
| Walkthrough.World.RoomCentre | fun/about/scripts/index.js:112-131 | the loop's start-plus-offset arithmetic yields the room centre |
| Walkthrough.World.CheckCollision | fun/about/scripts/index.js:153-165 | the scan with early return answers true exactly when some wall blocks the point |
| Motion.Turn | fun/about/scripts/index.js:199-201 | left turns by −0.05, right by +0.05; both held or neither cancel |
| Motion.Propose | fun/about/scripts/index.js:203-217 | forward moves by (sin, −cos)·0.1 and back by the opposite; both held or neither propose no move |
| Motion.Resolve | fun/about/scripts/index.js:224-225 | x is committed if (newX, z) is free, then z if (x', newZ) is free. Each axis takes its proposal or keeps its value, and a free start stays free |
| Motion.VerticalStep | fun/about/scripts/index.js:192-235 | a jump starts only with space held, when not jumping and on the ground (`IsOnGround`: y ≤ 0.5). Airborne, the height gains the velocity and the velocity loses 0.01. An airborne player stays airborne exactly when y + vy is still above 0.5; otherwise the landing snaps to the ground state. The height never drops below 0.5, and is above it while jumping |
| Motion.Step | fun/about/scripts/index.js:199-235 | one frame of the player: a free position stays free, height stays at least 0.5, and a jumping player is above the ground |
| Motion.Sliding | fun/about/scripts/index.js:224-225 | when only one axis of the move is blocked, the other axis still moves |
| Motion.PhaseAboveGround | fun/about/scripts/index.js:227-234 | each airborne phase 1..40 of the arc is jumping and above the ground |
| Motion.PhaseStep | fun/about/scripts/index.js:219-235 | the vertical motion is a fixed automaton. Standing, it takes off exactly when space is held; airborne, it advances one phase whatever the keys; after phase 40 it lands |
| Motion.AlwaysLands | fun/about/scripts/index.js:227-234 | from any phase k of a jump, 41 − k more frames land the player with velocity 0 and the flag cleared |
| Motion.Airborne | fun/about/scripts/index.js:227-234 | during a jump, the state after n frames is phase k+n, still jumping and above the ground |
| Motion.JumpLasts41Frames | fun/about/scripts/index.js:219-235 | a jump from the ground stays airborne for frames 1..40 and is back on the ground after 41 |
| Walkthrough.World.TurnPlayer | fun/about/scripts/index.js:199-201 | the heading update equals Motion.Turn |
| Walkthrough.World.ProposeMove | fun/about/scripts/index.js:203-217 | the proposed position equals Motion.Propose |
| Walkthrough.World.MaybeStartJump | fun/about/scripts/index.js:219-222 | the jump start equals Motion.StartJump |
| Walkthrough.World.MovePlayer | fun/about/scripts/index.js:224-225 | the two collision checks commit the position Motion.Resolve gives |
| Walkthrough.World.ApplyGravity | fun/about/scripts/index.js:227-235 | the jump integration equals Motion.Fall |
| Walkthrough.World.Frame | fun/about/scripts/index.js:196-263 | one animation frame: the player takes Motion.Step, the jump advances one phase, the state invariant is kept, a free position stays free, and the focus is clamped |
| Modes.NextCameraIdx | fun/about/scripts/index.js:51-54 | the next preset index is always valid; it advances by one and wraps from the last preset to the first |
| Modes.CameraCycle | fun/about/scripts/index.js:51-57 | three toggles restore the preset, and one or two do not |
| Modes.LowerIsLetter | fun/about/scripts/index.js:183-184 | a key lower-cases to a single letter exactly when it is that letter in either case |
| Modes.OnKeyDown | fun/about/scripts/index.js:182-185 | "f"/"F" flips the flashlight, "c"/"C" selects the next camera preset, and every other key changes neither |
| Modes.KeyPressesRestore | fun/about/scripts/index.js:182-185 | two presses of a key restore the flashlight. A press keeps the camera index valid, and three presses of any key other than f/F restore the modes |
| Walkthrough.World.KeyDown | fun/about/scripts/index.js:150-185 | marks the key held and changes the modes as Modes.OnKeyDown says; the state invariant is kept |
| Walkthrough.World.KeyUp | fun/about/scripts/index.js:151 | marks the key released |
| Walkthrough.World.ToggleCamera | fun/about/scripts/index.js:55-57 | the camera index becomes the next preset index |
| Modes.ClampFocus | fun/about/scripts/index.js:263 | the focus ends up in [π/20, π/2.5]; a value inside is kept, and one outside goes to the nearer bound |
| Modes.ClampIdempotent | fun/about/scripts/index.js:263 | clamping twice is clamping once |
| Filtering.Filter | fun/doc/scripts/initNav.js:41-42 | the filter is no longer than its input, and every kept element passes the test |
| Filtering.FilterAppend | fun/doc/scripts/initNav.js:41-42 | filtering distributes over concatenation: the kept elements stay in input order |
| Filtering.FilterMembership | fun/doc/scripts/initNav.js:41-42 | an element is kept exactly when it occurs in the input and passes the test |
| Filtering.FilterMultiset | fun/doc/scripts/initNav.js:41-42 | each passing value keeps all its occurrences, and no other value survives |
| Filtering.FilterAllKept | fun/doc/scripts/initNav.js:41-42 | when every element passes, the result is the input |
| PathSegments.Split | fun/doc/scripts/initNav.js:47 | splitting on '/' always yields at least one piece, and no piece contains a slash |
| PathSegments.JoinSplit | fun/doc/scripts/initNav.js:47 | joining the pieces with '/' gives the string back |
| PathSegments.SplitJoin | fun/doc/scripts/initNav.js:47 | splitting slash-free pieces joined with '/' gives the pieces back |
| PathSegments.SplitAppend | fun/doc/scripts/initNav.js:47 | the pieces of a + "/" + b are the pieces of a followed by those of b |
| PathSegments.Segments | fun/doc/scripts/initNav.js:47 | the filtered pieces are all non-empty and slash-free |
| PathSegments.SegmentIsWholePiece | fun/doc/scripts/initNav.js:47 | a non-empty name is among the filtered pieces exactly when some split piece equals it whole |
| PathSegments.RepeatedSlashIgnored | fun/doc/scripts/initNav.js:47 | doubling a slash does not change the filtered pieces |
| DocNav.SubtopicsOfMembership | fun/doc/scripts/initNav.js:41-42 | `SubtopicsOf`, the filter of the table by topicId: a subtopic is listed under a topic exactly when it is in the table and its topicId names that topic |
| DocNav.SubtopicsOfCounts | fun/doc/scripts/initNav.js:41-42 | a listed subtopic appears as often as in the table: duplicates are kept |
| DocNav.SubtopicsOfSnoc | fun/doc/scripts/initNav.js:41-42 | a table entry added at the end is listed last for its own topic and not at all for others |
| DocNav.DuplicateIdsKept | fun/doc/scripts/initNav.js:41-42 | two different entries of a topic that share an id are both listed, at different positions |
| DocNav.ReactListKeepsDuplicateIds | fun/doc/scripts/initNav.js:24-28 | in the site's table, the React.js list shows the id "react-js-hooks" twice |
| DocNav.LinkPathPieces | fun/doc/scripts/initNav.js:47-49 | the pieces of `LinkPath`, the link of a subtopic, are "..", topic, file when the path has a "topics" piece, and "..", "doc", "topics", topic, file otherwise |
| DocNav.TopicsPieceMatches | fun/doc/scripts/initNav.js:47 | "/topics/web" has the "topics" piece |
| DocNav.TopicsBeforeEmptyPiecesMatches | fun/doc/scripts/initNav.js:47 | empty pieces from doubled slashes do not hide "topics" |
| DocNav.LongerPieceDoesNotMatch | fun/doc/scripts/initNav.js:47 | "/topicsX/web" has no "topics" piece: only whole pieces match |
| DocNav.LinksAppend | fun/doc/scripts/initNav.js:45-53 | the entries of two runs of subtopics are those of the first run followed by those of the second, so each entry stays in its subtopic's position |
| DocNav.SubtopicLinksMembership | fun/doc/scripts/initNav.js:41-54 | a link is in a topic's list exactly when some subtopic of that topic produces it |
| DocNav.CreateSubtopicsList | fun/doc/scripts/initNav.js:38-57 | the loop over the whole table returns the links of exactly that topic's subtopics, in order, possibly none |
| DocNav.Navigation | fun/doc/scripts/initNav.js:75-85 | there is one navigation item per topic, in order, each with its topic's label |
| DocNav.NavigationListsSubtopic | fun/doc/scripts/initNav.js:75-85 | a subtopic's link is under topic i exactly when some subtopic of topic i produces it |
| DocNav.InitNav | fun/doc/scripts/initNav.js:71-90 | the topic loop builds exactly the navigation, every item with its subtopic list, even an empty one |
| DocNav.ClickTarget | fun/doc/scripts/initNav.js:59-68 | a click asks for a new frame source exactly when the target's data-type is "subtopic" |
| DocNav.ClickTargetPieces | fun/doc/scripts/initNav.js:63-67 | a click on a target whose data-type is "subtopic" asks for `ClickPath`, whose pieces are "topics", topic, file; a missing attribute reads "null" |
| DocNav.LinksReachSamePage | fun/doc/scripts/initNav.js:47-67 | the long link from a page in doc/, the short link from a page in doc/topics/<t>/ and the click path from doc/ all resolve to doc/topics/<topic>/<file> |
| DocNav.DocPage.OnClickTopic | fun/doc/scripts/initNav.js:59-69 | a click on a target whose data-type is "subtopic" sets the frame source, if there is a frame; any other click, including a topic click, changes nothing |

## Left out

- The THREE.js scene, camera, renderer, lights, floor meshes and label textures are left out. They are library calls with no logic of their own. Only the wall boxes and the label text and position are modelled.
- The camera transform, `lookAt`, and the flashlight and spotlight placement are presentation. They are mostly trigonometry and do not feed back into the state.
- Walkthrough.World.Frame: the sine and cosine of the heading are inputs, because trigonometry is not modelled.
- Motion.Step: positions are exact reals, not IEEE doubles. So forward and back cancel exactly, and the jump lands after exactly 41 frames, only in exact arithmetic. Floating-point rounding could move the landing frame.
- π is modelled as the shortest decimal of `Math.PI`, 3.141592653589793. The bounds π/20 and π/2.5 are therefore exact rationals.
- Modes.ToLower: only ASCII letters are lower-cased; `toLowerCase` also folds other scripts. Only the keys "f"/"F" and "c"/"C" matter, and those are ASCII.
- `requestAnimationFrame` scheduling and `addEventListener` registration are host event plumbing. One frame (`Frame`) and one key event (`KeyDown`, `KeyUp`) are modelled as methods instead.
- Walkthrough.World.CreateRooms: column and row counts are integers, and non-integer counts are not modelled. The room size is not validated: the code rejects no size, so no error path is modelled.
- DOM creation, `classList`, `prepend` and the iframe lookup in `initNav.js` are left out. The navigation is modelled as a list of items with label and link list. The content frame is a nullable source attribute.
- DocNav.DocPage.OnClickTopic: the handler is modelled on an arbitrary target's attributes. The page's own subtopic entries carry no `data-type`, `data-topic` or `data-filename` (`fun/doc/scripts/initNav.js:43-54`), so, as written, no click in the built navigation reaches the retargeting branch. Which elements can be clicked is page structure and is not modelled.
- DocNav.Resolve is a simplified relative-path resolution: `..` pieces and plain pieces only, with no `.`, query or fragment. It is used only to show where the links lead.
