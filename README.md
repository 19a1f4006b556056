# Dawkins biomorphs: a model of the page script

The page shows nine recursive trees. Tree 0 is the root. Clicking a tree makes
it the root and breeds the eight others from it: each child copies the root's
five attributes (`length`, `divergence`, `reduction`, `lineWidth`,
`branchings`) and then takes one random step in one attribute, with the step
clamped and rounded as the attribute table says. The scene is shared through
the address fragment:
- each tree's values are joined with `_`;
- the trees are joined with `,`;
- reading the fragment back restores every tree.

The project models the logic of `js/main.js`; what it leaves out is listed
under "## Left out". It has six modules, one per part of the script:

- `Utilities` (`utilities.dfy`): `Utilities.random`, `minMax`, `Math.round`,
  `roundTo`, and the unused string hash `toHash`, whose 32-bit wrap-around is
  written out.
- `Attributes` (`attributes.dfy`): the `ATTRIBUTES` table, and the one-attribute
  random walk that `randomize` performs as a function of two random draws
  (`Roll`). It also covers the seeding by `||` that `initialize` does, and the
  ever-growing name list `attributeNamesArray`.
- `HashProtocol` (`hash_protocol.dfy`):
  - `Array.prototype.join` and `String.prototype.split` for a one-character
    separator;
  - `getAttributesHash` as a loop;
  - the round trips of one tree's string and of the whole scene's string.
- `Models` (`tree_model.dfy`): `TreeModel` as a class whose fields are the
  attributes object, the private name list and the parent.
- `Views` (`tree_view.dfy`): `TreeView` as a class. Its closure variables are
  fields, and the canvas is the list of strokes drawn since the last clear.
  `draw` runs the `branches` generations as a loop, one generation per
  `setTimeout`.
- `Controller` (`tree_controller.dfy`): the `TreeController` closure as a
  class, with `models`, `views`, `root`, `attributeHashes`, `ignoreHash` and
  the list of fragments published. It covers `init`, `setupTree`,
  `spawnChildren` and `readHash`. Each operation is specified by a function of
  the trees' values (`States()`), and lemmas prove the properties of those
  functions.

JavaScript numbers are modelled as exact reals. `Math.random()` draws are
parameters in `[0, 1)`. Number-to-text conversion and `parseFloat` are a
parameter pair, `NumberFormat(show, parse)`. Any round trip through them needs
`Exact`: the value's text reads back as the value and holds no `_` or `,`.

The model keeps two behaviours of the code as they are:
- `roundTo(x, 2)` is `Math.round(x * 20) / 20`. It snaps to twentieths,
  although the parameter is called `decimalPlaces` (js/main.js:19-21) and the
  comment at js/main.js:108 speaks of decimal places.
- With `branchings` 0, `draw` still runs `branches()` once. A tree with
  `branchings` 0 therefore shows one generation of two branches, not the bare
  trunk.

## Model

| member | source | states |
|---|---|---|
| Utilities.Random | js/main.js:3-7 | the draw `u` in [0,1) maps into [start, end) when start < end, and to `start` when the range is empty |
| Utilities.MinMax | js/main.js:9-17 | the result never exceeds a present max; it is at least a present min when min <= max; it is the value itself when the value lies on the allowed side of each present bound; it is max when the bounds cross; it is always one of value, min and max |
| Utilities.Round | js/main.js:106 | `Math.round` returns the integer within (x - 1/2, x + 1/2] |
| Utilities.RoundMonotone | js/main.js:106 | `Math.round` is monotone |
| Utilities.RoundTo | js/main.js:19-21 | `roundTo(num, d)` times `10*d` is `Math.round(num * 10 * d)`, and it lies within half a step of `num * 10 * d` |
| Utilities.RoundToTwentieths | js/main.js:19-21 | `roundTo(x, 2)` is a multiple of 1/20 within 1/40 of `x` |
| Utilities.RoundToIdempotent | js/main.js:19-21 | applying `roundTo(_, 2)` twice gives the same value as applying it once |
| Utilities.RoundToWithin | js/main.js:104-109 | rounding to twentieths keeps a value between bounds that are multiples of 1/20 |
| Utilities.ToInt32 | js/main.js:34-35 | the signed 32-bit value congruent to its argument modulo 2^32 |
| Utilities.HashIsWrappedPolynomial | js/main.js:27-38 | the 32-bit hash of a string is the wrap-around of the polynomial over its code units with multiplier 31 |
| Utilities.ToHash | js/main.js:27-38 | the loop with `(hash<<5)-hash+char` and `hash & hash` computes the reference hash `h(s+[c]) = ToInt32(31*h(s)+c)`, 0 for the empty string |
| Attributes.Spec | js/main.js:45-75 | every row of the table has varyBy >= 0 and both bounds or neither; its initial value lies within its bounds; its bounds are multiples of 1/20; a rounded row has integral bounds |
| Attributes.Values.With | js/main.js:112 | writing one attribute changes that attribute and no other |
| Attributes.PickIndex | js/main.js:96 | `Math.floor(Math.random()*length)` is an index of the list |
| Attributes.Step | js/main.js:98-101 | the random step lies in [-varyBy, varyBy), and is 0 when varyBy is 0 |
| Attributes.Mutate | js/main.js:101-110 | the new value of the picked attribute is within its bounds, and integral for `branchings`, whatever the old value was |
| Attributes.Randomized | js/main.js:94-113 | `randomize` puts the picked attribute in range and leaves every other attribute unchanged |
| Attributes.MutateIsSmallStep | js/main.js:98-110 | from an in-range value a mutation moves at most varyBy plus the rounding slack (1/2 for `branchings`, 1/40 otherwise) |
| Attributes.LineWidthIsFixed | js/main.js:67-70 | `lineWidth` (varyBy 0, no bounds) stays 6 when picked |
| Attributes.RandomizedStaysSettled | js/main.js:94-113 | a random step keeps every bounded attribute in range, `branchings` integral and `lineWidth` 6 |
| Attributes.Seeded | js/main.js:86-90 | seeding from the stand-in parent gives the table's initial values; seeding from a settled parent copies it exactly |
| Attributes.ZeroLengthFallsBack | js/main.js:89 | the `||` fallback replaces a parent value of 0 by the initial value |
| Attributes.ChildOfSettledParent | js/main.js:85-92 | a child initialized from a settled parent is settled and differs from the parent in the picked attribute only |
| Attributes.OrphanIsSettled | js/main.js:81-92 | a tree with no parent starts settled |
| Attributes.CyclicExtend | js/main.js:87-88 | appending the five names to a cyclic name list keeps entry i equal to name i mod 5 |
| Attributes.CyclicIsUniform | js/main.js:88-96 | in a cyclic name list every name fills exactly a fifth of the list, so every attribute is equally likely to be picked |
| HashProtocol.Split | js/main.js:310-312 | `split` returns at least one piece, and no piece holds the separator |
| HashProtocol.SplitJoin | js/main.js:300-312 | splitting a join gives back the pieces, provided none holds the separator |
| HashProtocol.JoinSplit | js/main.js:300-312 | joining the pieces of a split gives back the string |
| HashProtocol.JoinAppend | js/main.js:300 | joining one more piece onto at least one appends the separator and that piece to the join of the others |
| HashProtocol.JoinKeepsOut | js/main.js:300 | a character other than the separator that no piece holds does not occur in the join |
| HashProtocol.GetAttributesHash | js/main.js:262-268 | the loop that appends each value and `_`, followed by the dropped last character, is the `_`-join of the values in property order |
| HashProtocol.TreeHashHasNoTreeDelimiter | js/main.js:262-268 | a tree's string has no `,` when its numbers format exactly |
| HashProtocol.TreeHashRoundTrip | js/main.js:262-268 | splitting a tree's string on `_` gives its tokens, and parsing those gives its numbers in property order |
| HashProtocol.TreeHashInjective | js/main.js:262-268 | different attributes objects give different strings |
| HashProtocol.DecodeEncode | js/main.js:300-312 | tokens joined with `_` and then trees joined with `,`, split back on `,` and then `_`, give every tree's tokens in order |
| HashProtocol.SceneHash | js/main.js:300 | the `,`-join of the trees' strings splits on `,` back into exactly those strings, when there is at least one and none holds `,` |
| HashProtocol.SceneRoundTrip | js/main.js:300-312 | the scene string of the trees splits on `,` into one segment per tree, and each segment splits on `_` into its tree's tokens and parses to its tree's numbers |
| Models.AssignFive | js/main.js:121-124 | a positional restore of five tokens over a cyclic name list writes the five attributes in table order and nothing else |
| Models.RestoreOwnHash | js/main.js:119-124 | restoring a tree from its own string gives back exactly its attributes |
| Models.TreeModel.constructor | js/main.js:77-133 | a new model has the five names, the given parent, and the initial values seeded from that parent and then randomized once |
| Models.TreeModel.Initialize | js/main.js:85-92 | the parent is replaced only when one is given, the name list grows by the five names, and the values are seeded from the parent and then randomized once |
| Models.TreeModel.Randomize | js/main.js:94-113 | the attributes become `Randomized` of the old ones over the current name list; nothing else changes |
| Models.TreeModel.GetAttributes | js/main.js:115-117 | the copy equals the attributes |
| Models.TreeModel.SetAttributesOrdered | js/main.js:121-125 | the tokens are assigned positionally by the name list, and tokens past its end go to the "undefined" property |
| Models.TreeModel.SetAttributesNamed | js/main.js:126-129 | every given attribute is parsed from its text; the others keep their values |
| Views.LastCall | js/main.js:224 | the calls stop at the least natural number not below `branchings` |
| Views.LastCallOfInteger | js/main.js:224 | for an integral `branchings` k the last call is k |
| Views.FanOutSize | js/main.js:192-221 | after g generations there are 2^g start points |
| Views.RenderingSegmentCount | js/main.js:148-229 | a drawing has the trunk plus LastCall+1 generations; its segment total is 2^(LastCall+2) - 1 |
| Views.ZeroBranchingsDrawsOneGeneration | js/main.js:180-228 | with `branchings` 0 a drawing is the trunk plus one generation of two segments |
| Views.GreenStaysGreen | js/main.js:188-219 | with `reduction` in (0, 1], once a generation is green every later one is green |
| Views.BranchStep | js/main.js:184-229 | one `branches` call after k generations leaves the state of k+1 generations |
| Views.TreeView.constructor | js/main.js:137-146 | a new view has a blank canvas, no start points and no root mark |
| Views.TreeView.Draw | js/main.js:148-229 | the canvas becomes the trunk plus generation g for g = 0 .. LastCall. Generation g has width `lineWidth * reduction^(g+1)` and 2^(g+1) segments, and it is green iff `length * reduction^(g+1) < 10`. The closure variables end at those of the last generation |
| Views.TreeView.Branches | js/main.js:184-221 | length and width are scaled by `reduction`, the start points double at bearing plus and minus `divergence`, and one stroke of 2·|start points| segments is added, green iff the new length is below 10 |
| Views.TreeView.SetRoot | js/main.js:240-242 | the canvas is marked as the root |
| Views.TreeView.UnsetRoot | js/main.js:244-246 | the canvas is no longer marked as the root |
| Controller.InitialSceneIsSettled | js/main.js:317-319 | after `init` every tree is settled, shows its attributes and has a cyclic name list, and trees 1 to 8 are children of tree 0 |
| Controller.SpawnedProperties | js/main.js:287-296 | `spawnChildren(index)` keeps the new root as it was. Every other tree gets the root as parent and five more names, and it differs from the root in the picked attribute only. A settled scene stays settled, and every canvas stays up to date |
| Controller.RestoreScene | js/main.js:300-315 | `readHash` of the scene string of any stray-free, exactly formatted attributes objects, on a page of the same number of trees with cyclic name lists and no stray property, gives every tree exactly its encoded attributes and redraws it, keeping its names and parent |
| Controller.StaleSegment | js/main.js:300-315 | a stored string that still describes the attributes before a restore differs from the restored tree's string |
| Controller.SpawnStep | js/main.js:291-296 | one pass of the `spawnChildren` loop extends the re-initialized prefix of the trees, and the refreshed prefix of the stored strings, by one tree; the root's pass changes nothing |
| Controller.RestoreStateStep | js/main.js:311-314 | one pass of the `readHash` loop extends the prefix of trees restored from their segments by one tree |
| Controller.RestoreHashStep | js/main.js:311-314 | refreshing the string of the tree just restored extends the prefix of up-to-date stored strings by one |
| Controller.RestoreDone | js/main.js:310-314 | when the loop stops at the last segment or the last tree, every tree that has a segment has been restored |
| Controller.CreateTree | js/main.js:271-283 | a new model from the parent, a new view showing it, and its string |
| Controller.CreateFounder | js/main.js:317-319 | `setupTree(0)` and the root marking of `spawnChildren(0, true)` give new model and view holding `Founder`: values seeded from the stand-in parent and randomized once, no parent, the five names, drawn, marked as the root, with its string |
| Controller.CreateScene | js/main.js:317-319 | the trees of `init` are distinct, tree 0 alone is the root, and their values and strings are those of `InitialScene` |
| Controller.CreateChildren | js/main.js:291-296 | the loop of `init`'s `spawnChildren(0, true)` makes eight new models and views, distinct from each other and from tree 0 and none marked as the root, holding trees 1 to 8 of `InitialScene`, with their strings |
| Controller.AddChild | js/main.js:291-296 | one pass of that loop appends one new child of tree 0, seeded from tree 0's values and drawn, and its string, keeping every tree distinct and unmarked |
| Controller.TreeController.constructor | js/main.js:317-319 | `init` leaves tree 0 as the root, the trees as `InitialScene`, every stored string describing its tree, and nothing published |
| Controller.TreeController.SetupTree | js/main.js:278-284 | tree `index` alone becomes `Reinitialized` from the parent's values, is redrawn, and gets its new string stored |
| Controller.TreeController.Reinitialize | js/main.js:280 | only tree `index`'s model changes: it becomes `Reinitialized` from the parent's values, and its canvas is not yet redrawn |
| Controller.TreeController.Redraw | js/main.js:282 | only tree `index`'s canvas changes, to the rendering of its attributes |
| Controller.TreeController.Rehash | js/main.js:283 | only the stored string of tree `index` changes, to the string of its attributes |
| Controller.TreeController.SpawnChildren | js/main.js:287-303 | tree `index` becomes the root. The trees become `Spawned`, and every other tree's stored string is refreshed. The scene string is published with `ignoreHash` set, and the flag is back to false afterwards; with `skipHash` nothing is published |
| Controller.TreeController.MoveRoot | js/main.js:288-290 | tree `index` becomes the one root-marked tree, and no tree's values or canvas change |
| Controller.TreeController.SetupChildren | js/main.js:291-296 | the trees become `Spawned` from the root's values, and every stored string except the root's is refreshed |
| Controller.TreeController.Publish | js/main.js:297-302 | publishing does not change the trees or the strings, because the echo of `setHash` is ignored |
| Controller.TreeController.Announce | js/main.js:300 | `setHash` records the scene string, and its synchronous echo through the muted `readHash` changes neither the trees nor the stored strings |
| Controller.TreeController.ReadHash | js/main.js:306-315 | when muted nothing changes. Otherwise the trees with a segment are restored, redrawn and given fresh strings (the corrected `readHash`), and the call throws at the first tree without a segment |
| Controller.TreeController.RestoreTree | js/main.js:311-314 | tree `index` alone becomes `RestoredState` of its segment: the segment's `_`-separated tokens assigned positionally, then redrawn |
| Controller.TreeController.RestoreNext | js/main.js:311-314 | one pass of the corrected loop extends both the prefix of restored trees and the prefix of up-to-date stored strings by one tree |
| Controller.TreeController.ReadHashAsWritten | js/main.js:306-315 | when muted nothing changes. Otherwise the trees with a segment are restored and redrawn, and the call throws at the first tree without a segment, as written. The stored strings are left as they were |

## Left out

- Canvas drawing (`clearRect`, `moveTo`, `lineTo`, `stroke`), and the canvas size taken from `offsetWidth`/`offsetHeight`: this is rendering output. A drawing is modelled as its list of strokes: width, colour and number of segments.
- `get_endpoint` (js/main.js:231-238): its trigonometry works on floating point. Start points keep only their bearing, which the source computes without trigonometry.
- `setTimeout` between generations: the delay is a scheduling effect, so the generations run synchronously. A second `draw` while generations are still pending is not modelled, because that is concurrency.
- `Math.random`: its draws are parameters (`Roll`), and the model promises nothing about their distribution beyond the uniform pick of a name (`CyclicIsUniform`).
- `Utilities.copyObject`'s JSON round trip: it is modelled as a value copy. JSON would turn NaN into null, and NaN is not modelled.
- Floating-point arithmetic, NaN and Infinity: numbers are exact reals. `parseFloat` of a token that is not a number is whatever `NumberFormat.parse` returns.
- Number-to-string conversion and `parseFloat`: these are the parameter `NumberFormat`. The round trips hold only for values whose text is exact.
- `console.log` in `setAttributes`: this is output.
- `hasher` (`initialized`, `changed`, `init`) and the click listener (`onClick`, js/main.js:248-252): these are a foreign library and browser events. The model has `ReadHash` and `SpawnChildren` called directly. `setHash` is modelled as recording the fragment and delivering it to `ReadHash` at once, while `ignoreHash` is set.
- `document.querySelectorAll` and `classList`: the root mark is the boolean field `isRoot` of a view.
- The implicit globals `tree`, `i` and `char`: they have no effect within the page.
- Models.TreeModel.SetAttributesNamed: the object branch of `setAttributes` is modelled only for the five attribute names, not for arbitrary property names. Nothing in the page calls it.
- Controller.TreeController.SpawnChildren: only after `init`, when all nine trees exist. `init`'s own `spawnChildren(0, true)`, which creates the trees, is `CreateScene`.

## Findings

| source | as written | input that shows it | evidently intended | confidence | as-written member | corrected member |
|---|---|---|---|---|---|---|
| js/main.js:306-315 | `readHash` restores and redraws the trees but does not refresh `attributeHashes` | open the page with a fragment that describes trees other than the ones `init` makes, then click tree k: `spawnChildren(k)` refreshes every string except tree k's, so the published fragment carries tree k's string from before the restore, while the page shows the restored tree k | the stored string of each restored tree is refreshed, as `setupTree` does, so published fragments describe the trees on screen | not executed | Controller.TreeController.ReadHashAsWritten, Controller.StaleSegment | Controller.TreeController.ReadHash |
