# A verified model of the diagram engine's text-to-geometry core

The editor turns a small line-oriented text language into one of four UML diagrams: class, sequence,
use case or state. It parses the text into diagram records and decides which kind of diagram the text
mostly describes. Each renderer then lays out the boxes, picks anchor points on their outlines, and
routes orthogonal connectors around the other boxes with a grid A* search. This project models that
pipeline in Dafny and proves what each step promises. The parse pipeline covers comment stripping,
the per-line rules, activation stacks and diagram-type resolution. Behind it sit the geometry helpers,
the router, and the four renderers' layout and edge-drawing code.

Where the source works step by step (the parser object that accumulates maps and arrays, and the
loops of the router, the A* search and the layout builders), the model is imperative. It uses a
`ParserState` class whose methods update fields, and methods with loop invariants. Each of them is
proved equal to a functional specification: `ParserState.ApplyLine` equals `Step`,
`ParseDiagramText` equals `Parse`, `SimplifyOrthogonalPoints` equals `Simplify`, and so on. The
properties are then proved about those functions. Pure helpers are functions with contracts.

Modules, one per file:

- `JsString`: the JavaScript string built-ins the source relies on.
- `LineRules`: the regular expressions, as explicit recognisers that follow the JS engine's
  backtracking order.
- `DiagramModel`: the records.
- `DiagramParser`, `ParserFacts`, `NormalizeFacts`, `ClassBodyFacts`: parsing.
- `DiagramTypes`: type resolution.
- `TextUtils`: text direction.
- `Geometry`, `PathSimplify`, `AStar`, `Router`: geometry and routing.
- `Sorting`: `Array.prototype.sort`.
- `ClassLayout`, `ClassGrid`, `ClassLevels`, `ClassHierarchy`, `ClassPlacement`, `ClassBuild`,
  `ClassScene`: the class renderer.
- `SequenceScene`, `UseCaseScene`, `StateLabel`, `StateScene`: the other renderers.
- `SceneCommon`: helpers the renderers share.

Coordinates are exact reals. `Math.round` is `Floor(v + 0.5)` and `Math.ceil` is `-Floor(-v)`.

## Model

| member | source | states |
|---|---|---|
| TextUtils.SvgTextDirection | src/utils/TextUtils.js:1-9 | the direction is right-to-left exactly when some character lies in U+0600–U+06FF |
| TextUtils.SvgTextAnchor | src/utils/TextUtils.js:11-16 | without Persian text the fallback anchor is kept; with it, `start` becomes `end` and any other fallback is kept |
| TextUtils.EmptyTextIsLtr | src/utils/TextUtils.js:3-16 | the default empty value is not Persian: left-to-right, anchored at `start` |
| TextUtils.PersianSurvivesConcat | src/utils/TextUtils.js:3-5 | when either part contains a Persian character, so does their concatenation |
| DiagramModel.NumberedIdPrefixed | src/utils/DiagramParser.js:175 | a generated id starts with its prefix and is longer than it |
| DiagramModel.NumberedIdInjective | src/utils/DiagramParser.js:175 | two counters give the same generated id only when they are equal |
| JsString.Trim | src/utils/DiagramParser.js:1-4 | the result is the input with leading and trailing white space removed: a slice flanked only by white space, with no white space at either end |
| JsString.TrimIdempotent | src/utils/DiagramParser.js:1-4 | trimming twice equals trimming once |
| JsString.TrimPadded | src/utils/DiagramParser.js:139 | padding a trimmed core with white space on both sides and trimming gives back the core |
| JsString.IndexOfChar | src/utils/DiagramParser.js:137 | the first index of the character, or -1 exactly when it does not occur |
| JsString.Split | src/utils/DiagramParser.js:110 | splitting gives at least one part and no part contains the separator |
| JsString.JoinSplit | src/utils/DiagramParser.js:110 | joining the parts with the separator restores the original text |
| JsString.SplitJoin | src/utils/DiagramParser.js:154-157 | splitting a join of separator-free parts gives the parts back |
| JsString.NatToString | src/utils/DiagramParser.js:175 | the decimal text of a number is non-empty, all digits, without a leading zero |
| JsString.DecimalRoundTrip | src/utils/DiagramParser.js:175 | reading the decimal text back yields the number |
| JsString.NatToStringInjective | src/utils/DiagramParser.js:175 | distinct numbers have distinct decimal texts |
| JsString.PrefixedDecimalInjective | src/utils/DiagramParser.js:191 | a shared prefix followed by decimal text identifies the number |
| JsString.LowerAscii | src/utils/DiagramParser.js:192 | `A`–`Z` move to lower case and every other character is unchanged |
| JsString.LowerAsciiString | src/utils/DiagramParser.js:197 | lower-casing keeps the length and lower-cases each character |
| JsString.CodeUnitLessIrreflexive | src/renderers/ClassRenderer.jsx:194 | the default sort order never puts a string before itself |
| JsString.CodeUnitLessTotal | src/renderers/ClassRenderer.jsx:194 | any two distinct strings are ordered one way or the other |
| JsString.CodeUnitLessTransitive | src/renderers/ClassRenderer.jsx:194 | the default sort order is transitive |
| LineRules.IdentEnd | src/utils/DiagramParser.js:32 | the end of the longest run of word characters starting at a position |
| LineRules.FirstCommentFrom | src/utils/DiagramParser.js:2 | the first position where a `//` or a white-space-then-`#` comment starts, or none when there is none |
| LineRules.StripComment | src/utils/DiagramParser.js:2 | `replace` with a comment pattern keeps a prefix of the line that no match starts in, and cuts exactly where the leftmost match starts (the whole line when there is none) |
| LineRules.NormalizeLine | src/utils/DiagramParser.js:1-4 | a normalised line is no longer than the raw line and has no white space at either end |
| LineRules.MatchClassSingleLine | src/utils/DiagramParser.js:150-152 | `class Name { body }` yields an identifier and a body without line terminators |
| LineRules.MatchClassStart | src/utils/DiagramParser.js:162-163 | `class Name {` yields an identifier, and the line ends with `{` |
| LineRules.ClassFormsExclusive | src/utils/DiagramParser.js:150-168 | no line is both a single-line class and the start of a class body |
| LineRules.TokenAt | src/utils/DiagramParser.js:32 | a recognised relation token occurs literally at the position |
| LineRules.TokenAtText | src/utils/DiagramParser.js:32 | the text from the position to the token's end is exactly the token's text |
| LineRules.MatchClassRelation | src/utils/DiagramParser.js:30-32 | a matched line is the left identifier, white space, the token, white space and the right identifier, with both identifiers beginning and ending the line |
| LineRules.IdentTailEnds | src/utils/DiagramParser.js:32 | the trailing identifier closes the line and only white space comes before it |
| LineRules.RelationAtTokenLine | src/utils/DiagramParser.js:32 | an identifier prefix, the token where its white space ends, and an identifier tail form a relation line |
| LineRules.RelationLineOf | src/utils/DiagramParser.js:32 | the parts of a relation line at their positions make up a relation line |
| LineFacts.RelationOf | src/utils/DiagramParser.js:30-32 | every `Left TOKEN Right` line with identifier ends is matched, with those ends and that token |
| LineRules.MatchActivation | src/utils/DiagramParser.js:181-183 | a matched line is the keyword in any mix of ASCII cases, white space, and a non-empty participant closing the line (the last character when only white space follows) |
| LineRules.RestOfLineAt | src/utils/DiagramParser.js:181 | what `\s*(.+)$` captures is non-empty, free of line terminators and closes the line, after all white space or as the last character |
| LineFacts.ActivationOf | src/utils/DiagramParser.js:181-183 | every `activate X` / `deactivate X` line, keyword in any case, is matched with its command and `X` |
| LineRules.ArrowAt | src/utils/DiagramParser.js:221-223 | an arrow is found exactly when `-->` or `->` starts at the position, and `-->` wins |
| LineRules.ArrowAtText | src/utils/DiagramParser.js:221 | the consumed text is `-->` or `->`, and `-->` exactly when it starts there |
| LineRules.MatchUseCase | src/utils/DiagramParser.js:221-223 | a matched line is the actor text, white space, an arrow, white space and the use case in parentheses closing the line |
| LineRules.UseCaseFromLine | src/utils/DiagramParser.js:221 | a use case found by the lazy actor group forms a use case line |
| LineFacts.UseCaseOf | src/utils/DiagramParser.js:221-223 | every `Actor -> (Use case)` or `Actor --> (Use case)` line, for an actor without `-`, is matched with that actor and use case |
| LineRules.StateFirstLine | src/utils/DiagramParser.js:238 | a transition found by the lazy first group is a state line |
| LineRules.MatchStateTransition | src/utils/DiagramParser.js:238-240 | a matched line is `[`, the source text, the rest of a transition with the bracketed target and the optional `: label` |
| LineFacts.StateOf | src/utils/DiagramParser.js:238-240 | every `[Source] -> [Target]` line, with `-->` too and an optional ` : label`, is matched with those states and that label (empty when absent) |
| LineRules.MatchSequenceMessage | src/utils/DiagramParser.js:262-264 | a matched line is the sender text, white space, an arrow (`-->` exactly when asynchronous), the receiver text and a colon tail with the label |
| LineRules.MessageFirstLine | src/utils/DiagramParser.js:262 | a message found by the lazy sender group is a message line |
| LineFacts.MessageOf | src/utils/DiagramParser.js:262-264 | every `Sender -> Receiver : text` line, with `-->` too, is matched with those parts and the arrow's kind |
| NormalizeFacts.NormalizeRemovesComments | src/utils/DiagramParser.js:1-4 | after normalisation a line holds no `//` and no white-space-then-`#` |
| NormalizeFacts.NormalizeIdempotent | src/utils/DiagramParser.js:1-4 | normalising a normalised line changes nothing |
| NormalizeFacts.SlashStripRemovesAll | src/utils/DiagramParser.js:2 | cutting at the first `//` leaves no `//` |
| NormalizeFacts.HashStripRemovesAll | src/utils/DiagramParser.js:2 | cutting at the first ` #` leaves no ` #` and adds no `//` |
| NormalizeFacts.NoCommentFound | src/utils/DiagramParser.js:2 | a comment-free line has no comment start |
| NormalizeFacts.TrimKeepsNoMarks | src/utils/DiagramParser.js:3 | trimming a comment-free line keeps it comment-free |
| DiagramParser.AddKey | src/utils/DiagramParser.js:186-188 | a key is appended on first insertion only, so insertion order is kept |
| DiagramParser.FindClass | src/utils/DiagramParser.js:6-16 | the index of the class with that name, or none when no class has it |
| DiagramParser.EnsureClass | src/utils/DiagramParser.js:6-16 | afterwards the class exists; an existing class list is unchanged, otherwise an empty class is appended |
| DiagramParser.AddClassMember | src/utils/DiagramParser.js:18-28 | a blank line changes nothing, a trimmed line with `(` and `)` becomes a method, any other non-blank line an attribute |
| DiagramParser.BodyMembers | src/utils/DiagramParser.js:154-157 | the members of a single-line body are trimmed and non-empty, and there are no more of them than parts |
| DiagramParser.ParseClassRelation | src/utils/DiagramParser.js:30-74 | a relation is found exactly when the line matches; `<\|--` is an inheritance with the ends swapped, no start marker and a triangle at the end; `*--` a composition with a filled diamond at the start; `o--` an aggregation with a hollow diamond at the start; `--` an association without markers; the other three keep the ends |
| DiagramParser.FindStack | src/utils/DiagramParser.js:197-216 | the activation stack of a participant, or none when it has none |
| DiagramParser.ParserState.constructor | src/utils/DiagramParser.js:112-128 | the parser starts from the empty context |
| DiagramParser.ParserState.EnsureClass | src/utils/DiagramParser.js:6-16 | the state after `ensureClass`, and the returned index names that class |
| DiagramParser.ParserState.AddMember | src/utils/DiagramParser.js:18-28 | the state after adding one member line to a class |
| DiagramParser.ParserState.ApplyOpenBody | src/utils/DiagramParser.js:136-148 | inside a class body, `}` closes it; other text is cut at `}` and added as a member |
| DiagramParser.ParserState.ApplySingleLineClass | src/utils/DiagramParser.js:150-160 | a single-line class creates the class and adds each `;`-separated member |
| DiagramParser.ParserState.AddEach | src/utils/DiagramParser.js:154-159 | the state after adding each member in order |
| DiagramParser.ParserState.ApplyClassStart | src/utils/DiagramParser.js:162-168 | `class Name {` creates the class and opens its body |
| DiagramParser.ParserState.ApplyRelation | src/utils/DiagramParser.js:170-179 | a relation creates both classes and appends a numbered relation |
| DiagramParser.ParserState.ApplyActivation | src/utils/DiagramParser.js:181-219 | the state after one activate or deactivate command |
| DiagramParser.ParserState.Push | src/utils/DiagramParser.js:197-201 | `activate` pushes the current message count on the participant's stack |
| DiagramParser.ParserState.Pop | src/utils/DiagramParser.js:203-216 | `deactivate` closes the innermost activation, or records an error when there is none |
| DiagramParser.ParserState.ApplyUseCase | src/utils/DiagramParser.js:221-236 | a use case line records actor, use case and a numbered association |
| DiagramParser.ParserState.ApplyState | src/utils/DiagramParser.js:238-260 | a transition records its states (never `*`) and a numbered transition |
| DiagramParser.ParserState.ApplyMessage | src/utils/DiagramParser.js:262-280 | a message records both participants and a numbered message |
| DiagramParser.ParserState.ApplyLine | src/utils/DiagramParser.js:130-283 | one loop iteration equals the functional line step, including the error for an unparsed line |
| DiagramParser.ParserState.FlushOpenActivations | src/utils/DiagramParser.js:289-298 | every activation still open is closed at the last message |
| DiagramParser.ParserState.Conclude | src/utils/DiagramParser.js:285-329 | the result is the finished context: unclosed-class error, flushed activations, diagrams and resolved type |
| DiagramParser.ParseDiagramText | src/utils/DiagramParser.js:109-330 | the imperative parser returns exactly the functional parse of the input |
| DiagramParser.RunLines | src/utils/DiagramParser.js:130-283 | after the loop the state is the fold of the line step over all lines |
| DiagramParser.FeedLine | src/utils/DiagramParser.js:130-134 | one more line extends the fold by one step |
| ParserFacts.EmptyWf | src/utils/DiagramParser.js:112-128 | the initial context satisfies the parser invariant |
| ParserFacts.OpenBodyWf | src/utils/DiagramParser.js:136-148 | a line inside a class body keeps the invariant |
| ParserFacts.SingleLineClassWf | src/utils/DiagramParser.js:150-160 | a single-line class keeps the invariant |
| ParserFacts.ClassStartWf | src/utils/DiagramParser.js:162-168 | opening a class body keeps the invariant |
| ParserFacts.RelationWf | src/utils/DiagramParser.js:170-179 | a relation keeps the invariant |
| ParserFacts.PushWf | src/utils/DiagramParser.js:197-201 | a push keeps starts within the message count and adds one open start |
| ParserFacts.PopWf | src/utils/DiagramParser.js:203-216 | a pop keeps messages and commands and trades one open start for one interval |
| ParserFacts.ActivationWf | src/utils/DiagramParser.js:181-219 | an activation command keeps the invariant |
| ParserFacts.PopKeepsWf | src/utils/DiagramParser.js:203-216 | a pop keeps the invariant |
| ParserFacts.UseCaseWf | src/utils/DiagramParser.js:221-236 | a use case line keeps the invariant |
| ParserFacts.StateWf | src/utils/DiagramParser.js:238-260 | a transition keeps the invariant, so `*` never becomes a state |
| ParserFacts.MessageWf | src/utils/DiagramParser.js:262-280 | a message keeps the invariant |
| ParserFacts.LineStepWf | src/utils/DiagramParser.js:150-282 | every rule outside a class body keeps the invariant |
| ParserFacts.StepWf | src/utils/DiagramParser.js:130-283 | every line keeps the invariant: numbered ids, starts and intervals within the message count, one interval or open start per activate command |
| ParserFacts.ProcessWf | src/utils/DiagramParser.js:130-283 | the invariant holds after any sequence of lines |
| ParserFacts.FlushStacksFacts | src/utils/DiagramParser.js:289-298 | flushing adds exactly one interval per open start and keeps intervals within the message count |
| ParserFacts.FinishedActivations | src/utils/DiagramParser.js:289-329 | in the finished result there is one activation interval per activate command |
| ParserFacts.ParseActivations | src/utils/DiagramParser.js:109-330 | for every input, activation intervals and activate commands correspond one to one |
| ParserFacts.FinishedDiagrams | src/utils/DiagramParser.js:300-320 | the diagrams carry the collected records in insertion order |
| ParserFacts.ParseIdsAndStates | src/utils/DiagramParser.js:238-260 | for every input, `*` is never listed as a state |
| ParserFacts.NumberedIdsDistinct | src/utils/DiagramParser.js:175 | records numbered at different positions have different ids |
| ParserFacts.EnsureClassKeeps | src/utils/DiagramParser.js:6-16 | `ensureClass` never removes a class |
| ParserFacts.AddMembersKeeps | src/utils/DiagramParser.js:154-159 | adding members never removes a class and changes nothing but the classes |
| ClassBodyFacts.ClassStartOf | src/utils/DiagramParser.js:162-168 | `class Name {` is recognised as a body start and not as a single-line class |
| ClassBodyFacts.SingleLineOf | src/utils/DiagramParser.js:150-152 | `class Name {body}` is recognised with that name and body |
| ClassBodyFacts.HeaderNormal | src/utils/DiagramParser.js:1-4 | a class header and `}` survive normalisation unchanged |
| ClassBodyFacts.BodyMembersOfPlain | src/utils/DiagramParser.js:154-157 | already-trimmed, non-empty members pass the split-and-filter unchanged |
| ClassBodyFacts.BodyMembersKeepsParts | src/utils/DiagramParser.js:154-157 | every part whose trimmed text is not blank is kept, trimmed |
| ClassBodyFacts.BodyMembersSingle | src/utils/DiagramParser.js:154-157 | one part gives its trimmed text, or nothing when that is blank |
| ClassBodyFacts.BodyMembersConcat | src/utils/DiagramParser.js:154-157 | the split-and-filter works part by part and keeps the parts' order |
| ClassBodyFacts.RunMembers | src/utils/DiagramParser.js:136-148 | feeding member lines into an open body adds them one by one |
| ClassBodyFacts.CloseStep | src/utils/DiagramParser.js:136-141 | `}` inside a body closes it and changes nothing else |
| ClassBodyFacts.BlockFromHeader | src/utils/DiagramParser.js:136-168 | a header, member lines and `}` create the class with exactly those members |
| ClassBodyFacts.SingleLineEqualsBlock | src/utils/DiagramParser.js:136-168 | `class A {m1; m2}` on one line has the same effect as the same class written over several lines |
| ClassBodyFacts.OpenBodyConsumesLine | src/utils/DiagramParser.js:136-148 | while a body is open, every non-empty line goes to that class and no other rule fires |
| DiagramTypes.Entries | src/utils/DiagramParser.js:77-88 | the four score entries carry each kind's score |
| DiagramTypes.Positive | src/utils/DiagramParser.js:90-92 | the detected kinds are exactly those with a positive score, and they keep the order of the entries |
| DiagramTypes.SortByScore | src/utils/DiagramParser.js:98 | sorting keeps the same entries |
| DiagramTypes.SortSorted | src/utils/DiagramParser.js:98 | the sorted entries descend by score and keep the count at every score level |
| DiagramTypes.MaxScore | src/utils/DiagramParser.js:99 | the top score is at least every kind's score and is reached by some kind |
| DiagramTypes.SortedHeads | src/utils/DiagramParser.js:98-100 | the first sorted entry carries the top score, and the second ties it exactly when two kinds share the top score |
| DiagramTypes.ResolveUnknown | src/utils/DiagramParser.js:94-96 | the type is unknown exactly when every score is zero, and then nothing is detected |
| DiagramTypes.DetectedTypes | src/utils/DiagramParser.js:90-92 | a kind is detected exactly when its score is positive, and the detected kinds come in the order use case, sequence, class, state, each once |
| DiagramTypes.ResolveMixed | src/utils/DiagramParser.js:102-104 | the type is mixed exactly when two kinds share a positive top score |
| DiagramTypes.ResolveSingle | src/utils/DiagramParser.js:106 | the type is a kind exactly when that kind alone has the top score |
| Sorting.Sort | src/renderers/ClassRenderer.jsx:186-215 | sorting returns a permutation of its input |
| Sorting.SortSorted | src/renderers/ClassRenderer.jsx:186-215 | with a consistent comparator the result is ordered |
| Sorting.InsertSorted | src/renderers/ClassRenderer.jsx:186-215 | inserting into an ordered sequence keeps it ordered |
| Sorting.SortInPlace | src/renderers/ClassRenderer.jsx:194-209 | the in-place sort computes the specified sort |
| Geometry.Clamp | src/utils/GeometryUtils.js:31-33 | the value limited to the range: unchanged inside it, the nearer bound outside it |
| Geometry.RectCenter | src/utils/GeometryUtils.js:35-40 | the centre is equidistant from opposite edges |
| Geometry.InflateRect | src/utils/GeometryUtils.js:42-49 | inflating grows each dimension by twice the padding and keeps the centre |
| Geometry.InflateContains | src/utils/GeometryUtils.js:42-58 | a point inside a rectangle is inside it after non-negative inflation |
| Geometry.CornersInside | src/utils/GeometryUtils.js:51-58 | the inclusive point test accepts the four corners |
| Geometry.SideNormal | src/utils/GeometryUtils.js:17-22 | each side's normal is a unit axis vector pointing outwards |
| Geometry.OppositeNormals | src/utils/GeometryUtils.js:17-22 | opposite sides have opposite normals |
| Geometry.BuildSideAnchor | src/utils/GeometryUtils.js:60-87 | the anchor lies on the chosen side, pushed out by the offset, with the other coordinate clamped inside the inset edge |
| Geometry.SideAnchorOnOutline | src/utils/GeometryUtils.js:60-87 | with no offset the anchor lies on the rectangle |
| Geometry.ScoreAnchorPair | src/utils/GeometryUtils.js:89-110 | the score is never below the Manhattan distance between the anchors |
| Geometry.ScorePenalties | src/utils/GeometryUtils.js:89-110 | the score equals the distance exactly when both anchors face each other on different sides; otherwise at least 28 is added |
| Geometry.AnchorPoint | src/utils/GeometryUtils.js:112-124 | the side faces the target: horizontal when the horizontal offset dominates, then by its sign |
| Geometry.Candidate | src/utils/GeometryUtils.js:126-143 | every candidate pair has normals on both anchors |
| Geometry.BestOfScores | src/utils/GeometryUtils.js:133-143 | the kept pair has the least score, and pairs tried earlier score strictly more |
| Geometry.Consider | src/utils/GeometryUtils.js:135-142 | one iteration keeps the best-so-far invariant |
| Geometry.GetClosestAnchors | src/utils/GeometryUtils.js:126-151 | the result is the first of the 16 side pairs with the least score |
| PathSimplify.Compact | src/utils/GeometryUtils.js:208-215 | dropping repeated points keeps the first and last points |
| PathSimplify.CompactNoRepeats | src/utils/GeometryUtils.js:208-215 | after compaction no two neighbours are equal |
| PathSimplify.CompactSubseq | src/utils/GeometryUtils.js:208-215 | compaction yields a subsequence of the input |
| PathSimplify.Corners | src/utils/GeometryUtils.js:217-229 | corner selection keeps the first point |
| PathSimplify.CornersSubseq | src/utils/GeometryUtils.js:217-229 | the corners are a subsequence of the compacted points |
| PathSimplify.SimplifyFacts | src/utils/GeometryUtils.js:203-232 | short paths are unchanged; longer ones keep both ends, have at least two points and are a subsequence of the input |
| PathSimplify.BackAndForthKeepsRepeat | src/utils/GeometryUtils.js:217-232 | a there-and-back route simplifies to its start twice |
| PathSimplify.SimplifyOrthogonalPoints | src/utils/GeometryUtils.js:203-232 | the loops compute the specified simplification |
| Router.SeqMin | src/utils/GeometryUtils.js:153-175 | the minimum is a member and at most every member |
| Router.SeqMax | src/utils/GeometryUtils.js:153-175 | the maximum is a member and at least every member |
| Router.BuildBounds | src/utils/GeometryUtils.js:153-175 | the bounds are the extreme coordinates of points and obstacles, widened by the margin |
| Router.BoundsEnclose | src/utils/GeometryUtils.js:153-175 | every point and obstacle lies inside the bounds, at least the margin in |
| Router.Round | src/utils/GeometryUtils.js:177-182 | the nearest integer, halves rounded up |
| Router.Ceil | src/utils/GeometryUtils.js:385-386 | the least integer not below the value |
| Router.ToCellOfFromCell | src/utils/GeometryUtils.js:177-189 | converting a cell to a point and back gives the cell |
| Router.FromCellOfToCell | src/utils/GeometryUtils.js:177-189 | snapping a point to its cell moves it by at most half a grid step on each axis |
| Router.GridSpan | src/utils/GeometryUtils.js:385-386 | a grid has at least two cells per axis and enough to cover the extent |
| Router.SnapInSpan | src/utils/GeometryUtils.js:177-182 | a coordinate within the extent snaps to an index inside the grid |
| Router.CellInGrid | src/utils/GeometryUtils.js:398-402 | a point inside the bounds snaps to a cell inside the grid |
| Router.AnyContains | src/utils/GeometryUtils.js:388-396 | true exactly when some rectangle contains the point |
| Router.BlockedCells | src/utils/GeometryUtils.js:388-396 | a cell is blocked exactly when it is in the grid and its centre lies in a padded obstacle |
| Router.NeighbourBound | src/utils/GeometryUtils.js:337-352 | at most eight neighbours are counted |
| Router.CellPenalty | src/utils/GeometryUtils.js:337-352 | the penalty lies between zero and eight neighbour penalties |
| Router.CellPenaltyAt | src/utils/GeometryUtils.js:337-352 | the loop computes the specified penalty |
| Router.BuildStubPoint | src/utils/GeometryUtils.js:354-364 | a stub exists exactly when the anchor has a side and a normal, and it keeps them |
| Router.StubLeavesOutward | src/utils/GeometryUtils.js:354-364 | the stub point lies the stub length away, straight out along the normal |
| Router.FrameFacts | src/utils/GeometryUtils.js:383-402 | the grid has at least two columns and two rows, contains both routing cells, and every padded obstacle lies inside the bounds |
| Router.Interior | src/utils/GeometryUtils.js:434-436 | the path without its first and last points |
| Router.FallbackElbow | src/utils/GeometryUtils.js:419-432 | the fallback adds one elbow when the ends differ on both axes, and nothing otherwise |
| Router.AssembledFacts | src/utils/GeometryUtils.js:438-446 | the final route has at least two points and runs from the start anchor to the end anchor |
| Router.PathPoints | src/utils/GeometryUtils.js:434-436 | interior cells become their grid points |
| Router.InteriorClear | src/utils/GeometryUtils.js:409-436 | every interior point of a search result is a grid point clear of the padded obstacles |
| Router.AssembledOnRoute | src/utils/GeometryUtils.js:438-446 | every point of the assembled route is an anchor, a stub point or a clear grid point |
| Router.RouteOrthogonalPath | src/utils/GeometryUtils.js:366-447 | the route runs from start to end and is either the fallback elbow or keeps to anchors, stubs and clear grid points |
| Router.RouteElbow | src/utils/GeometryUtils.js:419-446 | the fallback route runs from start to end |
| Router.RouteAlongCells | src/utils/GeometryUtils.js:434-446 | a found cell path yields a route from start to end through clear grid points |
| Router.SvgCommands | src/utils/GeometryUtils.js:449-458 | one drawing command per point |
| Router.SvgPathSingle | src/utils/GeometryUtils.js:449-458 | a single point gives one move command |
| Router.SvgPathSnoc | src/utils/GeometryUtils.js:449-458 | each further point appends one line-to command |
| AStar.DirectionIndex | src/utils/GeometryUtils.js:24-29 | each side maps to the direction pointing that way |
| AStar.MovesFollowNormals | src/utils/GeometryUtils.js:10-22 | each grid move follows its side's outward normal |
| AStar.Manhattan | src/utils/GeometryUtils.js:199-201 | the distance is zero exactly for the same cell |
| AStar.OppositeDirectionSides | src/utils/GeometryUtils.js:254-261 | two directions are opposite exactly when their sides are opposite; a direction is never opposite itself |
| AStar.MovementCostBounds | src/utils/GeometryUtils.js:303-317 | a step costs at least one plus the cell penalty, exactly that when going straight, and the most for a U-turn |
| AStar.AddToSet | src/utils/GeometryUtils.js:319-330 | adding to the open set keeps it free of duplicates and adds exactly that state |
| AStar.RemoveAt | src/utils/GeometryUtils.js:271-280 | removing the selected state keeps the others |
| AStar.ScoredDirection | src/utils/GeometryUtils.js:263-290 | every scored state has a valid direction, and only the start has none |
| AStar.SelectCurrent | src/utils/GeometryUtils.js:271-280 | the first state with the least f-score |
| AStar.Relax | src/utils/GeometryUtils.js:319-330 | relaxing a neighbour keeps the search invariant |
| AStar.Reverse | src/utils/GeometryUtils.js:241-242 | the reversed sequence, element by element |
| AStar.DropRepeats | src/utils/GeometryUtils.js:247-250 | removing repeated cells never lengthens the path |
| AStar.DropRepeatsOfAdjacent | src/utils/GeometryUtils.js:247-250 | a path of adjacent cells has no repeats to remove |
| AStar.ReversedChainLinked | src/utils/GeometryUtils.js:234-242 | the reversed parent chain runs forward through adjacent, unblocked grid cells |
| AStar.LinkedChainPath | src/utils/GeometryUtils.js:243-251 | the reconstructed cells start at the start cell and end at the reached cell |
| AStar.WalkBack | src/utils/GeometryUtils.js:235-240 | following parents from a reached state ends at the start state |
| AStar.ReconstructPath | src/utils/GeometryUtils.js:234-252 | the path runs from the start cell to the reached cell through adjacent, in-grid, unblocked cells |
| AStar.RouteAStar | src/utils/GeometryUtils.js:263-335 | a found path runs from start to goal through adjacent, in-grid, unblocked cells |
| SceneCommon.LastBy | src/renderers/UseCaseRenderer.jsx:36-42 | the map's keys are exactly the keys of the items |
| SceneCommon.LastByValue | src/renderers/UseCaseRenderer.jsx:36-42 | each key maps to the last item with that key |
| SceneCommon.FillBy | src/renderers/SequenceRenderer.jsx:38-44 | the loop fills the map as specified |
| SceneCommon.FirstSeen | src/renderers/SequenceRenderer.jsx:77 | the keys in order of first insertion, each once |
| SceneCommon.Values | src/renderers/SequenceRenderer.jsx:77 | one value per key, in first-insertion order, each the last item stored under it |
| SceneCommon.Others | src/renderers/UseCaseRenderer.jsx:74-76 | the obstacles are the items other than the two ends |
| SceneCommon.OthersMembers | src/renderers/UseCaseRenderer.jsx:74-76 | a rectangle is an obstacle exactly when some item other than the two ends has it |
| SceneCommon.Rects | src/renderers/StateRenderer.jsx:243-248 | the rectangle of each item, in order |
| SceneCommon.MaxFrom | src/renderers/ClassRenderer.jsx:348-349 | the running maximum is at least the start and every value, and is one of them |
| SceneCommon.ClosestAnchors | src/utils/GeometryUtils.js:126-151 | the closest anchor pair with no offset |
| ClassLayout.SectionsFitBox | src/renderers/ClassRenderer.jsx:9-13 | every attribute and method row fits inside the computed box height |
| ClassLayout.CharWidth | src/renderers/ClassRenderer.jsx:15-25 | each character is 4 to 8.7 units wide |
| ClassLayout.TextWidth | src/renderers/ClassRenderer.jsx:15-25 | the estimated width lies between 4 and 8.7 units per character |
| ClassLayout.TextWidthConcat | src/renderers/ClassRenderer.jsx:15-25 | the width of a concatenation is the sum of the widths |
| ClassLayout.PrefixWider | src/renderers/ClassRenderer.jsx:27-39 | a longer prefix plus the same suffix is strictly wider |
| ClassLayout.FitTextToWidth | src/renderers/ClassRenderer.jsx:27-39 | text that fits is kept; otherwise the result is a prefix followed by the ellipsis |
| ClassLayout.FittingPrefixesAreDownwardClosed | src/renderers/ClassRenderer.jsx:27-39 | if a prefix with ellipsis fits, every shorter one does |
| ClassLayout.Widest | src/renderers/ClassRenderer.jsx:41-48 | at least 120 and at least every line's width, and equal to 120 or to some line's width |
| ClassLayout.ClassWidth | src/renderers/ClassRenderer.jsx:41-48 | between 250 and 320; below the cap every member line fits with 34 units to spare |
| ClassLayout.ClassIds | src/renderers/ClassRenderer.jsx:51 | the class ids in order |
| ClassLayout.InheritanceOf | src/renderers/ClassRenderer.jsx:52 | exactly the inheritance relations |
| ClassLayout.ChildrenMembers | src/renderers/ClassRenderer.jsx:62-70 | a child is listed under a parent exactly when a known inheritance edge joins them |
| ClassLayout.ParentsMembers | src/renderers/ClassRenderer.jsx:62-70 | a parent is listed for a child exactly when a known inheritance edge joins them |
| ClassLayout.ChildParentDual | src/renderers/ClassRenderer.jsx:50-77 | the child and parent maps describe the same edges, between known classes |
| ClassLayout.FilterInheritance | src/renderers/ClassRenderer.jsx:52 | the loop keeps exactly the inheritance relations |
| ClassLayout.EmptyLists | src/renderers/ClassRenderer.jsx:57-60 | every class starts with an empty list, and only classes get one |
| ClassLayout.AddRelation | src/renderers/ClassRenderer.jsx:62-70 | one edge extends both maps to the next prefix of relations |
| ClassLayout.BuildInheritanceMaps | src/renderers/ClassRenderer.jsx:50-77 | the maps hold, per class, its children and its parents over the known inheritance edges |
| ClassGrid.Dimensions | src/renderers/ClassRenderer.jsx:124-163 | every class has a size: width 250–320 and height at least 104 |
| ClassGrid.DimensionsLastWins | src/renderers/ClassRenderer.jsx:124-163 | a repeated id takes the size of its last class |
| ClassGrid.MeasureClasses | src/renderers/ClassRenderer.jsx:124-163 | the loop measures as specified |
| ClassGrid.SqrtUp | src/renderers/ClassRenderer.jsx:125 | the least root whose square covers the count |
| ClassGrid.Columns | src/renderers/ClassRenderer.jsx:125 | the least positive column count whose square holds every class |
| ClassGrid.GridCell | src/renderers/ClassRenderer.jsx:151-162 | row and column such that row × columns + column is the index |
| ClassGrid.CellUnique | src/renderers/ClassRenderer.jsx:151-162 | that row and column are unique |
| ClassGrid.CellIsDivMod | src/renderers/ClassRenderer.jsx:151-162 | they equal the index divided by the columns and its remainder |
| ClassGrid.RowAndColumn | src/renderers/ClassRenderer.jsx:151-162 | the method computes the specified cell |
| ClassGrid.CellOrder | src/renderers/ClassRenderer.jsx:151-162 | later classes come later in reading order |
| ClassGrid.RowsAtMostColumns | src/renderers/ClassRenderer.jsx:125-138 | the grid never has more rows than columns |
| ClassGrid.GroupRows | src/renderers/ClassRenderer.jsx:131-138 | each row holds the ids of its slice |
| ClassGrid.Tallest | src/renderers/ClassRenderer.jsx:140-142 | the row height is at least each member's height and equals one of them |
| ClassGrid.StackedGrows | src/renderers/ClassRenderer.jsx:144-149 | a later row starts below an earlier row's height plus the gap |
| ClassGrid.StackRows | src/renderers/ClassRenderer.jsx:144-149 | the loop computes each row's top |
| ClassGrid.GridPrefix | src/renderers/ClassRenderer.jsx:151-162 | the placed boxes are each class at its grid cell |
| ClassGrid.BuildGridLayout | src/renderers/ClassRenderer.jsx:124-163 | the method computes the specified grid layout |
| ClassGrid.GridSeparated | src/renderers/ClassRenderer.jsx:124-163 | a later class lies 90 units right on the same row, or 90 units below |
| ClassGrid.GridDisjoint | src/renderers/ClassRenderer.jsx:124-163 | no two grid boxes overlap |
| ClassLevels.RootsAmong | src/renderers/ClassRenderer.jsx:85-89 | roots are exactly the classes without parents |
| ClassLevels.ChildIsNoRoot | src/renderers/ClassRenderer.jsx:85-89 | a class with a parent is not a root |
| ClassLevels.PotentialDrops | src/renderers/ClassRenderer.jsx:96-108 | raising a level within its rank lowers the termination measure |
| ClassLevels.RelaxChild | src/renderers/ClassRenderer.jsx:100-106 | a child ends at least one level below its parent, and no level drops |
| ClassLevels.RelaxChildren | src/renderers/ClassRenderer.jsx:99-107 | relaxing a parent's children keeps the queue invariant and makes progress |
| ClassLevels.Propagate | src/renderers/ClassRenderer.jsx:96-108 | the queue loop ends with every reached class settled |
| ClassLevels.MaxLevel | src/renderers/ClassRenderer.jsx:110 | the deepest level, or 0 when none was reached |
| ClassLevels.NumberUnreached | src/renderers/ClassRenderer.jsx:111-116 | the loop's result is the class-order numbering: reached levels are kept, and unreached classes get distinct levels below every reached one |
| ClassLevels.NumberedFacts | src/renderers/ClassRenderer.jsx:111-116 | the numbering gives every listed class a level, keeps existing levels, and puts each newly numbered class on its own level past the deepest |
| ClassLevels.NumberedPastDeepest | src/renderers/ClassRenderer.jsx:110-116 | numbering past the deepest reached level is the class-order numbering `maxLevel + 1`, `maxLevel + 2`, ... of the unreached classes |
| ClassLevels.PropagatedClosure | src/renderers/ClassRenderer.jsx:96-108 | every child of a reached class is reached, one level deeper at least |
| ClassLevels.PropagatedDeepest | src/renderers/ClassRenderer.jsx:96-108 | a reached non-root sits one below its deepest reached parent |
| ClassLevels.PropagatedRoots | src/renderers/ClassRenderer.jsx:91-95 | roots stay at level 0 |
| ClassLevels.FindRoots | src/renderers/ClassRenderer.jsx:85-89 | the loop finds exactly the roots |
| ClassLevels.LevelMapChild | src/renderers/ClassRenderer.jsx:79-122 | in the level map a reached class's children are deeper |
| ClassLevels.BuildLevelMap | src/renderers/ClassRenderer.jsx:79-122 | no map without inheritance or roots; otherwise every class gets a level with roots at 0, each reached class one below its deepest parent, and the unreached numbered `maxLevel + 1`, `maxLevel + 2`, ... in class order |
| ClassLevels.LevelsFromRoots | src/renderers/ClassRenderer.jsx:91-116 | every class gets a level, layered from the roots, with the unreached numbered in class order past the deepest reached level |
| ClassLevels.CycleUnranked | src/renderers/ClassRenderer.jsx:96-108 | a class below a root that is its own grandchild admits no ranking, so the level loop has no bound |
| ClassLevels.CycleBelowRootUnranked | src/renderers/ClassRenderer.jsx:96-108 | for `R` with `A` extending `R`, `A` and `B` extending each other, no ranking exists |
| ClassHierarchy.AtLevelMembers | src/renderers/ClassRenderer.jsx:177-184 | an id is in a level's bucket exactly when it is a class id whose level is that level |
| ClassHierarchy.AtLevelCount | src/renderers/ClassRenderer.jsx:177-184 | grouping keeps each id's multiplicity on its own level |
| ClassHierarchy.LevelsSeenFacts | src/renderers/ClassRenderer.jsx:177-184 | the level keys are distinct and are exactly the levels whose bucket is non-empty |
| ClassHierarchy.GroupStep | src/renderers/ClassRenderer.jsx:177-184 | one more class extends its own level's bucket only |
| ClassHierarchy.PushOnLevel | src/renderers/ClassRenderer.jsx:180-183 | one loop step keeps the grouping invariant |
| ClassHierarchy.GroupByLevel | src/renderers/ClassRenderer.jsx:177-184 | each level maps to its classes in input order |
| ClassHierarchy.OrderLevels | src/renderers/ClassRenderer.jsx:186-188 | the sorted level keys |
| ClassHierarchy.SortedLevels | src/renderers/ClassRenderer.jsx:186-188 | the levels strictly increase and are the same levels |
| ClassHierarchy.Score | src/renderers/ClassRenderer.jsx:196-209 | the barycenter is non-negative, and 0 without parents |
| ClassHierarchy.CodeUnitConsistent | src/renderers/ClassRenderer.jsx:194 | the default string order is a valid sort order |
| ClassHierarchy.BarycenterConsistent | src/renderers/ClassRenderer.jsx:196-209 | ordering by barycenter, then by name, is a valid sort order |
| ClassHierarchy.Positions | src/renderers/ClassRenderer.jsx:212-214 | positions are recorded for the row's ids and kept for earlier ones |
| ClassHierarchy.PositionsAt | src/renderers/ClassRenderer.jsx:212-214 | each id's recorded position is its index in the row |
| ClassHierarchy.RecordPositions | src/renderers/ClassRenderer.jsx:212-214 | the loop records the specified positions |
| ClassHierarchy.Arranged | src/renderers/ClassRenderer.jsx:190-215 | one row per processed level |
| ClassHierarchy.ArrangedRow | src/renderers/ClassRenderer.jsx:190-215 | each row is a permutation of its level |
| ClassHierarchy.ArrangedSorted | src/renderers/ClassRenderer.jsx:190-215 | each row is ordered by name on the first level and by parents' barycenter afterwards |
| ClassHierarchy.ArrangeLevels | src/renderers/ClassRenderer.jsx:190-215 | the loop computes the specified rows |
| ClassPlacement.FindIndex | src/renderers/ClassRenderer.jsx:237-258 | the first class with that id |
| ClassPlacement.OffsetStep | src/renderers/ClassRenderer.jsx:237-258 | each box starts 90 units after the previous box |
| ClassPlacement.OffsetApart | src/renderers/ClassRenderer.jsx:237-258 | any later box in a row starts after an earlier one plus the gap |
| ClassPlacement.RowSpan | src/renderers/ClassRenderer.jsx:221-226 | a row spans from 0 to its width |
| ClassPlacement.MaxWidth | src/renderers/ClassRenderer.jsx:228 | at least 500 and at least every row, and equal to 500 or to some row |
| ClassPlacement.RowAt | src/renderers/ClassRenderer.jsx:237-258 | one box per id of the row |
| ClassPlacement.PlaceRow | src/renderers/ClassRenderer.jsx:237-258 | the loop appends the row's boxes |
| ClassPlacement.LevelWidths | src/renderers/ClassRenderer.jsx:221-226 | each level's width |
| ClassPlacement.PlaceLevels | src/renderers/ClassRenderer.jsx:217-258 | the method computes the specified layout |
| ClassPlacement.PlaceRows | src/renderers/ClassRenderer.jsx:237-258 | the outer loop computes the specified layout |
| ClassPlacement.PlaceLevel | src/renderers/ClassRenderer.jsx:237-258 | one level extends the layout by that level |
| ClassPlacement.RowApart | src/renderers/ClassRenderer.jsx:237-258 | boxes in a row share a top and are 90 units apart |
| ClassPlacement.RowsStacked | src/renderers/ClassRenderer.jsx:230-235 | each later level lies 120 units below an earlier one |
| ClassPlacement.RowCentred | src/renderers/ClassRenderer.jsx:237-258 | each row is centred and starts at least 90 units from the left |
| ClassPlacement.Locate | src/renderers/ClassRenderer.jsx:237-258 | each placed box is a known box of a known row |
| ClassPlacement.LayoutApart | src/renderers/ClassRenderer.jsx:217-258 | no two placed boxes overlap |
| ClassPlacement.RowNodeIds | src/renderers/ClassRenderer.jsx:237-258 | a placed row lists the row's ids in order |
| ClassPlacement.LayoutIds | src/renderers/ClassRenderer.jsx:237-258 | the layout lists the rows' ids in order |
| ClassBuild.LevelRows | src/renderers/ClassRenderer.jsx:177-215 | one row per occupied level |
| ClassBuild.RowAtLevel | src/renderers/ClassRenderer.jsx:177-215 | each row is a permutation of its level's classes |
| ClassBuild.RowsListed | src/renderers/ClassRenderer.jsx:177-215 | every row id is a measured class |
| ClassBuild.RowsCount | src/renderers/ClassRenderer.jsx:177-215 | the rows together are a permutation of the classes |
| ClassBuild.HierarchyComplete | src/renderers/ClassRenderer.jsx:165-259 | the hierarchy places every class exactly as often as it occurs |
| ClassBuild.HierarchyApart | src/renderers/ClassRenderer.jsx:165-259 | no two hierarchy boxes overlap |
| ClassBuild.DeeperBelow | src/renderers/ClassRenderer.jsx:230-258 | a deeper level is drawn 120 units below a shallower one |
| ClassBuild.ParentsAbove | src/renderers/ClassRenderer.jsx:79-259 | a reached parent is drawn above its child |
| ClassBuild.RowsAtLevels | src/renderers/ClassRenderer.jsx:186-215 | rows follow the levels in increasing order |
| ClassBuild.BuildHierarchicalLayout | src/renderers/ClassRenderer.jsx:165-259 | the level map is the one `buildLevelMap` specifies; no layout without one, otherwise the specified hierarchy |
| ClassBuild.BuildLayout | src/renderers/ClassRenderer.jsx:261-276 | the hierarchy of the specified level map when there is one, the grid otherwise; every class placed once, no two boxes overlapping |
| ClassBuild.HierarchyLaidOut | src/renderers/ClassRenderer.jsx:165-259 | the hierarchy is a complete non-overlapping layout |
| ClassBuild.GridLaidOut | src/renderers/ClassRenderer.jsx:124-163 | the grid is a complete non-overlapping layout |
| ClassScene.LineX | src/renderers/ClassRenderer.jsx:278-283 | right-to-left text is drawn 12 units from the right edge, other text 12 from the left, inside the box |
| ClassScene.CreateSideAnchor | src/renderers/ClassRenderer.jsx:285-309 | the anchor carries its side and that side's normal |
| ClassScene.SideAnchorInside | src/renderers/ClassRenderer.jsx:285-309 | a ratio strictly between 0 and 1 puts the anchor strictly inside its side |
| ClassScene.NodeMapKeys | src/renderers/ClassRenderer.jsx:316-319 | each node is stored under its own id |
| ClassScene.IntoParent | src/renderers/ClassRenderer.jsx:321-331 | the inheritance relations into one parent |
| ClassScene.GroupByParent | src/renderers/ClassRenderer.jsx:321-331 | each parent maps to its incoming inheritance relations, parents in first-seen order |
| ClassScene.PushOntoParent | src/renderers/ClassRenderer.jsx:325-330 | one step keeps the grouping invariant |
| ClassScene.GroupsSnoc | src/renderers/ClassRenderer.jsx:325-330 | appending one relation extends only its parent's group |
| ClassScene.ParentsSnoc | src/renderers/ClassRenderer.jsx:325-330 | a new parent is appended on its first relation only |
| ClassScene.NoGroupYet | src/renderers/ClassRenderer.jsx:325-330 | an unseen parent has no relations yet |
| ClassScene.LeftOfConsistent | src/renderers/ClassRenderer.jsx:334-338 | ordering siblings by centre x is a valid sort order |
| ClassScene.SortedGroup | src/renderers/ClassRenderer.jsx:334-338 | a sorted group is a permutation ordered left to right |
| ClassScene.SiblingMeta | src/renderers/ClassRenderer.jsx:333-346 | every sibling relation gets its index in the sorted group and the group size |
| ClassScene.RankGroup | src/renderers/ClassRenderer.jsx:340-345 | one group extends the sibling table |
| ClassScene.RankNext | src/renderers/ClassRenderer.jsx:340-345 | one sibling extends the ranking |
| ClassScene.RatioInside | src/renderers/ClassRenderer.jsx:385-386 | every sibling ratio lies strictly between 0 and 1 |
| ClassScene.FractionInside | src/renderers/ClassRenderer.jsx:386 | index + 1 over total + 1 lies strictly between 0 and 1 |
| ClassScene.InheritanceAnchorsFace | src/renderers/ClassRenderer.jsx:381-399 | an inheritance edge leaves the child's top when the parent is above (else its bottom) at the centre, and enters the parent's opposite side at the sibling ratio |
| ClassScene.Items | src/renderers/ClassRenderer.jsx:401 | one obstacle per placed class |
| ClassScene.DrawRelation | src/renderers/ClassRenderer.jsx:374-409 | a relation between placed classes is drawn with sibling-ratio anchors for inheritance, closest anchors otherwise, and routed around the other boxes |
| ClassScene.DrawRelations | src/renderers/ClassRenderer.jsx:374-409 | every relation is drawn that way, in order |
| ClassScene.CanvasHolds | src/renderers/ClassRenderer.jsx:348-351 | the canvas is at least 980 × 540 and holds every box with a 120 margin |
| ClassScene.RenderClasses | src/renderers/ClassRenderer.jsx:311-409 | the layout is what `buildLayout` specifies for these classes and relations, complete and non-overlapping; sibling table, canvas size, and every relation drawn as specified |
| UseCaseScene.ActorItems | src/renderers/UseCaseRenderer.jsx:20-26 | one box per actor |
| UseCaseScene.UseCaseItems | src/renderers/UseCaseRenderer.jsx:28-34 | one box per use case |
| UseCaseScene.ColumnsApart | src/renderers/UseCaseRenderer.jsx:13-34 | no two actor boxes, no two use case boxes and no actor and use case overlap |
| UseCaseScene.NodeMapEntry | src/renderers/UseCaseRenderer.jsx:36-42 | an id is in the node map exactly when it is an actor or a use case, and a use case's box wins over an actor's |
| UseCaseScene.CanvasHolds | src/renderers/UseCaseRenderer.jsx:44-50 | the canvas is at least 440 high and holds every box with an 80 margin |
| UseCaseScene.DrawAssociation | src/renderers/UseCaseRenderer.jsx:73-91 | an association between known nodes is drawn between the closest anchors and routed around the other boxes; otherwise nothing is drawn |
| UseCaseScene.RenderUseCases | src/renderers/UseCaseRenderer.jsx:8-91 | the boxes, the 860-wide canvas and one drawing per association, as specified |
| UseCaseScene.LastByKeys | src/renderers/UseCaseRenderer.jsx:36-42 | each node is stored under its own id |
| SequenceScene.Columns | src/renderers/SequenceRenderer.jsx:38-44 | one column per participant |
| SequenceScene.LayoutColumn | src/renderers/SequenceRenderer.jsx:38-44 | a participant has a column, at the position of its last occurrence |
| SequenceScene.ColumnsIncrease | src/renderers/SequenceRenderer.jsx:30-44 | columns are 180 units apart, left to right |
| SequenceScene.ActivationBoxes | src/renderers/SequenceRenderer.jsx:4-23 | at most one box per activation |
| SequenceScene.BoxesKept | src/renderers/SequenceRenderer.jsx:4-23 | exactly the activations of known participants get boxes |
| SequenceScene.KeptSnoc | src/renderers/SequenceRenderer.jsx:4-23 | boxes keep the activations' order |
| SequenceScene.BoxSpansRows | src/renderers/SequenceRenderer.jsx:4-23 | a box is 16 wide, centred on the lifeline, from 18 above its first message row to 22 below its last |
| SequenceScene.CanvasHolds | src/renderers/SequenceRenderer.jsx:53-54 | the canvas is at least 900 × 420 and holds every column and message |
| SequenceScene.SelfLoop | src/renderers/SequenceRenderer.jsx:130-136 | a self message is a four-point orthogonal loop returning 30 lower |
| SequenceScene.AnchorsFaceEachOther | src/renderers/SequenceRenderer.jsx:151-163 | message anchors sit at the message's height, 8 units off each lifeline on facing sides |
| SequenceScene.DrawMessage | src/renderers/SequenceRenderer.jsx:121-184 | unknown ends draw nothing; a self message draws a loop; otherwise a route between facing anchors around the headers, labelled at its middle point |
| SequenceScene.DrawMessages | src/renderers/SequenceRenderer.jsx:121-184 | every message is drawn that way, in order |
| SequenceScene.RenderSequence | src/renderers/SequenceRenderer.jsx:25-184 | columns, activation boxes, canvas size and every message drawn as specified |
| StateLabel.TextWidth | src/renderers/StateRenderer.jsx:60-70 | 7.2 to 8.8 per character, exactly 7.2 for Latin-1 text |
| StateLabel.EstimateLabelBox | src/renderers/StateRenderer.jsx:60-70 | the label box is centred on the point, 18 high, 12 wider than the text |
| StateLabel.IntersectIffCommonPoint | src/renderers/StateRenderer.jsx:81-88 | two boxes intersect exactly when they share an interior point; the test is symmetric |
| StateLabel.SegmentToRect | src/renderers/StateRenderer.jsx:90-96 | a segment's box contains both ends and is at least 1 plus twice the padding each way |
| StateLabel.Firsts | src/renderers/StateRenderer.jsx:98-108 | deduplication keeps a subset of the candidates |
| StateLabel.FirstsDistinct | src/renderers/StateRenderer.jsx:98-108 | the kept candidates have distinct rounded keys |
| StateLabel.FirstsCover | src/renderers/StateRenderer.jsx:98-108 | every rounded key keeps one candidate |
| StateLabel.DedupeCandidates | src/renderers/StateRenderer.jsx:98-108 | the loop keeps the first candidate of each key |
| StateLabel.SegmentCandidates | src/renderers/StateRenderer.jsx:124-138 | two candidates per segment |
| StateLabel.SegmentsCandidates | src/renderers/StateRenderer.jsx:124-138 | two candidates per segment of the path |
| StateLabel.SegmentsInOrder | src/renderers/StateRenderer.jsx:124-138 | segment k's two candidates sit at positions 2k and 2k+1, in path order |
| StateLabel.CollectCandidates | src/renderers/StateRenderer.jsx:121-143 | segment candidates followed by the midpoint candidates, two per point |
| StateLabel.SegmentsSnoc | src/renderers/StateRenderer.jsx:124-138 | one more segment appends its two candidates |
| StateLabel.Hits | src/renderers/StateRenderer.jsx:147-176 | the count of intersected boxes is zero exactly when none is intersected |
| StateLabel.CountHits | src/renderers/StateRenderer.jsx:147-176 | the loop counts as specified |
| StateLabel.LowScoreIsClear | src/renderers/StateRenderer.jsx:147-176 | a score under 280 means the padded label box hits no node, no label and no path |
| StateLabel.ScoreCandidate | src/renderers/StateRenderer.jsx:147-176 | the method computes the specified score |
| StateLabel.ChooseBest | src/renderers/StateRenderer.jsx:147-176 | the first candidate with the least score, or none for no candidates |
| StateLabel.TakeLeast | src/renderers/StateRenderer.jsx:170-175 | a strictly smaller score becomes the best |
| StateLabel.KeepLeast | src/renderers/StateRenderer.jsx:170-175 | a score that is not smaller keeps the best |
| StateLabel.ChooseLabelPlacement | src/renderers/StateRenderer.jsx:110-179 | no placement for an empty label or a path under two points; otherwise the first least-scored deduplicated candidate |
| StateScene.StateColumns | src/renderers/StateRenderer.jsx:8-28 | at least one column |
| StateScene.BuildStateLayout | src/renderers/StateRenderer.jsx:8-28 | one box per state, in order, with its id |
| StateScene.LayoutApart | src/renderers/StateRenderer.jsx:8-28 | distinct states' boxes are at least 90 units apart on some axis and never intersect |
| StateScene.CenterOfBox | src/renderers/StateRenderer.jsx:30-50 | a node's centre is its box's centre |
| StateScene.OffsetAnchor | src/renderers/StateRenderer.jsx:52-58 | shifting moves the anchor by the offset and keeps side and normal |
| StateScene.NodeMapEntries | src/renderers/StateRenderer.jsx:186-200 | the map holds the states, plus the start pseudo node when a transition leaves `*` and the end node when one enters it |
| StateScene.WidthCandidates | src/renderers/StateRenderer.jsx:202-207 | each box's right edge plus 140, and the end node plus 120 |
| StateScene.HeightCandidates | src/renderers/StateRenderer.jsx:208 | each box's bottom plus 120 |
| StateScene.CanvasHolds | src/renderers/StateRenderer.jsx:202-208 | the canvas is at least 900 × 460 and holds every box and the end node |
| StateScene.Obstacles | src/renderers/StateRenderer.jsx:210-234 | each state box is an obstacle, followed by the pseudo nodes |
| StateScene.Resolve | src/renderers/StateRenderer.jsx:236-241 | a node is found exactly when its id, or the pseudo id for `*`, is in the map |
| StateScene.LaneCount | src/renderers/StateRenderer.jsx:268-269 | the number of earlier transitions with that key |
| StateScene.SignOf | src/renderers/StateRenderer.jsx:271-276 | the recorded sign comes from some earlier transition with that key |
| StateScene.CountsOfLookup | src/renderers/StateRenderer.jsx:250-269 | the count map holds each drawn key's lane count |
| StateScene.SignsOfLookup | src/renderers/StateRenderer.jsx:251-276 | the sign map holds each drawn key's sign |
| StateScene.LanesMatchSnoc | src/renderers/StateRenderer.jsx:268-276 | the maps stay in step with the drawn transitions |
| StateScene.AssignLane | src/renderers/StateRenderer.jsx:263-276 | the lane is the earlier count for the key, and the sign is the key's first sign or the opposite of the reverse key |
| StateScene.SegmentRects | src/renderers/StateRenderer.jsx:321-324 | one box per segment |
| StateScene.LabelRects | src/renderers/StateRenderer.jsx:319 | at most one label box per transition |
| StateScene.PushSegments | src/renderers/StateRenderer.jsx:321-324 | the loop appends the route's segment boxes |
| StateScene.RectsSnoc | src/renderers/StateRenderer.jsx:319-324 | one transition appends its label box and segment boxes |
| StateScene.AnchorsFor | src/renderers/StateRenderer.jsx:280-292 | the closest anchors shifted by the lane offset across the main direction |
| StateScene.RouteFor | src/renderers/StateRenderer.jsx:294-307 | the route avoids the other nodes and the earlier paths |
| StateScene.ViewBetween | src/renderers/StateRenderer.jsx:278-319 | one transition is drawn with its lane, anchors, route and label |
| StateScene.Record | src/renderers/StateRenderer.jsx:319-324 | the used label and path boxes grow by this transition's |
| StateScene.Advance | src/renderers/StateRenderer.jsx:268-324 | the accumulated maps and boxes stay in step |
| StateScene.DrawTransition | src/renderers/StateRenderer.jsx:255-332 | an unresolved transition draws nothing; otherwise it is drawn as specified, keeping the accumulators in step |
| StateScene.Somes | src/renderers/StateRenderer.jsx:332 | the drawn transitions without the gaps |
| StateScene.AllDrawnAt | src/renderers/StateRenderer.jsx:255-332 | each transition was drawn against those drawn before it |
| StateScene.AllDrawnSnoc | src/renderers/StateRenderer.jsx:255-332 | one more transition extends the drawing |
| StateScene.LanesByRuleSnoc | src/renderers/StateRenderer.jsx:263-278 | one more transition keeps the lane rule |
| StateScene.RuleAt | src/renderers/StateRenderer.jsx:263-278 | each drawn transition followed the lane rule |
| StateScene.SignsAreUnit | src/renderers/StateRenderer.jsx:271-276 | every sign is 1 or -1 |
| StateScene.SignOfSnoc | src/renderers/StateRenderer.jsx:271-276 | a key's sign is fixed by its first transition |
| StateScene.SignOfEarlier | src/renderers/StateRenderer.jsx:271-276 | each transition's sign is its key's recorded sign |
| StateScene.SameKeySameSign | src/renderers/StateRenderer.jsx:271-276 | transitions with the same key bend the same way |
| StateScene.LaneCountGrows | src/renderers/StateRenderer.jsx:268-269 | the count for a key grows past each of its transitions |
| StateScene.LanesIncrease | src/renderers/StateRenderer.jsx:268-269 | a repeated transition gets a strictly higher lane |
| StateScene.OffsetMagnitude | src/renderers/StateRenderer.jsx:278 | the lane offset is 12 + 10 × lane in size |
| StateScene.RepeatedEdgesApart | src/renderers/StateRenderer.jsx:268-278 | repeated transitions bend the same way, at least 10 units further out each time |
| StateScene.LaneKeyInjective | src/renderers/StateRenderer.jsx:265-266 | for ids without `>`, the key `from->to` determines both ids |
| StateScene.ReversePairsOpposed | src/renderers/StateRenderer.jsx:271-276 | a transition reversing an earlier one, between different nodes, bends the opposite way |
| StateScene.OpposedSnoc | src/renderers/StateRenderer.jsx:271-276 | one more transition keeps reverse pairs opposed |
| StateScene.OppositeOfEarlier | src/renderers/StateRenderer.jsx:271-276 | a new reverse transition takes the opposite sign |
| StateScene.BuildNodeMap | src/renderers/StateRenderer.jsx:186-200 | the loop builds the specified node map |
| StateScene.DrawTransitions | src/renderers/StateRenderer.jsx:255-332 | every transition is drawn as specified, and the drawn ones follow the lane rule |
| StateScene.RenderStates | src/renderers/StateRenderer.jsx:181-332 | the layout, node map, canvas size and every transition drawn, following the lane rule |

## Left out

- JavaScript object key order: plain objects list integer-like keys first. Names such as `__proto__` and `constructor` hit `Object.prototype`. The maps here keep plain insertion order and treat every name alike.
- Characters are Unicode code points, while JavaScript strings are UTF-16 code units. Code-unit behaviour on astral characters is not modelled: `.length`, a `slice` that cuts a surrogate pair in `fitTextToWidth`, and the code-unit sort order behind `CodeUnitLess` differ from the source for characters above U+FFFF. Locale-sensitive case mapping is not modelled either; `toLowerCase` is modelled for ASCII letters only.
- CRLF input: text reaches the parser from a textarea, which delivers LF line ends. A comment before a `\r` is handled exactly as written.
- Floating point: coordinates are exact reals, so rounding error in the router and layout is not modelled.
- SVG number formatting is a parameter `fmt`, and the `localeCompare` used to order same-barycenter classes is a parameter `collate`.
- The label dedupe key is the string `round(x):round(y)`; the model uses the pair of rounded integers, which separates exactly the same points.
- AStar.RouteAStar: the source loops until the open set is empty; the model stops after a fuel of 5 × columns × rows expansions, which the router passes in (`Router.SearchFuel`). Fuel sufficiency is not proved, so the contract covers only a path that is found. It does not claim that a path is found whenever one exists, or that a found path is cheapest.
- ClassLevels.BuildLevelMap: requires the inheritance edges reachable from the roots to admit a ranking, i.e. no cycle reachable from a root. The source loops forever on such a cycle; `ClassLevels.CycleBelowRootUnranked` shows that `R`; `A` extends `R`; `A` and `B` extend each other admits none. The same precondition carries over to ClassBuild.BuildHierarchicalLayout, ClassBuild.BuildLayout and ClassScene.RenderClasses.
- StateScene.ReversePairsOpposed: requires state ids without `>`. With `>` in an id, two different pairs can share the key `from->to` and the lanes mix.
- Presentation is not modelled: JSX markup, colours, fonts, marker definitions and how label text is drawn. The model stops at the boxes, anchors, routes, label positions and canvas size.
- React state and hooks, `DiagramRenderer.jsx`, `RendererPrimitives.jsx`, `useDiagramEngine.js`, `ExportUtils.js` and the editor components are not part of this model.
- PathSimplify.BackAndForthKeepsRepeat records documented behaviour, not a defect: a route that goes out and back simplifies to its start point twice.
