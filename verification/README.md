# PolitiScales viewer — a verified model of its core

The PolitiScales viewer is a small web application. A user records people's
PolitiScales results: a pseudo, a colour, and sixteen category scores that
come in eight opposed pairs. The user edits that list, exports it to CSV and
imports it back. The application shows the people as points of a 3D cloud
obtained by principal component analysis. Three fixed anchors sit in the
cloud: far left, far right and absolute centre. Hovering a point shows a
tooltip with its scores. Clicking a point draws a circle around the left–right
axis through that point.

This project models that core in Dafny and proves properties of it:

- the category and axis configuration;
- CSV export and import, with their round trip;
- the colour parser;
- the tooltip's layout;
- the entry-list and edit-form handlers of the main component;
- the PCA pipeline: normalisation, centring, covariance, deflation, projection, re-centring and scaling;
- the geometry of the measurement circle;
- the mouse and wheel handlers of the 3D view.

One module per concern:

| file | module | models |
|---|---|---|
| wrappers.dfy | Wrappers | `Option` and `Result` |
| types.dfy | Types | `POLITISCALE_CATEGORIES`, the entry type |
| config.dfy | Config | `AXES_CONFIG`, `getCategoryDisplayName`, `getOppositeKey` |
| text.dfy | Text | the ECMAScript `trim`, `split` and `join` the CSV code relies on |
| csv.dfy | Csv | `CSV_HEADERS`, `exportToCSV`'s text, `importFromCSV`'s `onload` callback |
| colors.dfy | Colors | `hexToRgba`, with `parseInt(…, 16)`, `>>` and `&` written out |
| tooltip.dfy | Tooltip | the tooltip's placement and rows |
| app.dfy | App | the list updates and the `Visualizer` class of the main component |
| projection.dfy | Projection | `performPCA` and `calculateStats` |
| measurement.dfy | Measurement | `getClosestPointOnAxis` and `updateCircle`'s geometry |
| interaction.dfy | Interaction | the mouse and wheel handlers and the overlay bookkeeping (`Viewer` class) |

JavaScript numbers are modelled as `real`. Code whose result Dafny cannot
compute exactly becomes a parameter, and each lemma states what it assumes
about that parameter. The parameters are:

- `Math.sqrt` (`sqrt`, `norm`);
- `Math.cos` and `Math.sin`;
- the randomly started power iteration (`power`);
- the conversion of a score to text in the CSV export (`show`);
- `Number(…)` on a CSV cell (`parse`);
- `Date.now()` (`now`, `base`);
- the three anchor colours read from the CSS (`red`, `blue`, `orange`);
- the window size;
- the raycast hit;
- the camera position after a pan;
- the answer to `window.confirm`.

The two stateful parts follow the source's own form:

- The main component's state is the class `App.Visualizer`, whose methods are its event handlers.
- The closure state of the 3D view's handlers is the class `Interaction.Viewer`. Its invariant is that the scene holds exactly the overlay objects whose refs are set.

These loops of the source are methods proved against the functions that specify them:

- `Csv.BuildEntry` is the `headers.forEach` loop.
- `Projection.FillCovariance`, `Deflate` and `PrincipalComponents` fill and deflate the covariance matrix in an `array2`. `Measurement.FillCirclePositions` fills the `Float32Array` of circle vertices.

## Model

| member | source | states |
|---|---|---|
| Types.KeyOfName | src/utils/types.ts:2-22 | reading a header as a category key only ever yields the key with that exact name |
| Types.KeyNameRoundTrip | src/utils/types.ts:2-22 | every category key's name reads back as that key |
| Types.AllKeysDistinct | src/utils/types.ts:2-19 | the sixteen categories are sixteen different keys, each at its own position |
| Config.PairKeysAt | src/utils/config.ts:11-20 | listing the pairs' keys puts pair j's key at 2j and its opposite at 2j+1 |
| Config.AxesConfigPartitionsKeys | src/utils/config.ts:11-20 | the eight axis pairs list every category exactly once, in declaration order |
| Config.AxisAt | src/utils/config.ts:11-20 | pair j holds categories 2j and 2j+1 |
| Config.CategoryDisplayName | src/utils/config.ts:23-25 | the display name of a key is its POLITISCALE_CATEGORIES label |
| Config.DisplayNamesDistinct | src/utils/config.ts:23-25 | different categories have different display names |
| Config.FindAxis | src/utils/config.ts:29 | `find` returns a pair that holds the key, and nothing only when no pair holds it |
| Config.OppositeKey | src/utils/config.ts:28-32 | the opposite key, when there is one, forms an AXES_CONFIG pair with the key, in one order or the other |
| Config.OppositeKeyOfPair | src/utils/config.ts:28-32 | each key of a pair has the other as its opposite |
| Config.PairHoldingKeyIsUnique | src/utils/config.ts:29 | the pair `find` returns is the only pair holding the key |
| Config.OppositeKeyIsInvolution | src/utils/config.ts:28-32 | every key has an opposite, different from itself, whose opposite is the key again |
| Text.TrimIdentity | src/utils/csvUtils.ts:38 | `trim` leaves a text unchanged exactly when it has no whitespace at either end |
| Text.TrimEmptyIffBlank | src/utils/csvUtils.ts:47 | a line is dropped by the blank-line filter exactly when it is all whitespace |
| Text.SplitJoin | src/utils/csvUtils.ts:11-13 | splitting a join of separator-free pieces gives the pieces back |
| Text.JoinSplit | src/utils/csvUtils.ts:37 | joining the pieces of a split gives the text back |
| Text.SplitPiecesAreFree | src/utils/csvUtils.ts:37-38 | no piece of a split holds the separator |
| Text.NonBlankMembers | src/utils/csvUtils.ts:46-47 | the filter keeps a line exactly when it is in the input and not blank |
| Text.NonBlankAppend | src/utils/csvUtils.ts:46-47 | filtering blank lines distributes over concatenation, so order is kept |
| Csv.CsvHeadersLayout | src/utils/csvUtils.ts:3-7 | the CSV header is pseudo, color, then the sixteen category names in declaration order |
| Csv.CsvHeadersDistinct | src/utils/csvUtils.ts:3-7 | no header name is repeated |
| Csv.RowFieldsLayout | src/utils/csvUtils.ts:12 | an exported row holds the pseudo, the colour and each category's score in header order, a null score as an empty field |
| Csv.ExportLinesHaveNoNewline | src/utils/csvUtils.ts:10-13 | with newline-free scores, pseudos and colours, no exported line holds a newline |
| Csv.ExportLayout | src/utils/csvUtils.ts:10-13 | the exported text splits back into the header line and one line per entry, and each line into its fields |
| Csv.LastIndexSpec | src/utils/csvUtils.ts:52-55 | a field's value comes from the last column with that name, and from none when no column has it |
| Csv.ImportedEntryStep | src/utils/csvUtils.ts:52-67 | each further column is one more assignment of the `forEach` callback |
| Csv.AssignFieldScore | src/utils/csvUtils.ts:56-66 | a column sets a category's score exactly when it is named after that category; pseudo, color and id columns set no score |
| Csv.BuildEntry | src/utils/csvUtils.ts:50-69 | the `forEach` loop builds the entry the declarative definition describes |
| Csv.ImportOutcome | src/utils/csvUtils.ts:37-76 | import fails exactly when a header is missing or no non-blank line follows it; otherwise one entry per non-blank line, in file order, with ids Date.now()+index |
| Csv.ImportSkipsBlankLine | src/utils/csvUtils.ts:46-47 | a blank line anywhere after the header changes nothing |
| Csv.ExportedHeaderFields | src/utils/csvUtils.ts:38 | the exported header line reads back as CSV_HEADERS |
| Csv.ExportedRowReadsBack | src/utils/csvUtils.ts:49-69 | an exported row reads back as its entry, with the import's id and null scores as 0 |
| Csv.ImportRowsOf | src/utils/csvUtils.ts:46-76 | lines made of the header and exported rows import as those entries, in order |
| Csv.ExportImportRoundTrip | src/utils/csvUtils.ts:9-76 | importing an exported non-empty list gives the same entries back, in order, with ids base+i and null scores read as 0 |
| Colors.RemoveFirstHashSpec | src/utils/colors.ts:47 | `replace("#", "")` removes exactly one '#' when there is one and nothing otherwise |
| Colors.HashIsStripped | src/utils/colors.ts:47 | a colour means the same with or without its leading '#' |
| Colors.ShortFormIsDoubled | src/utils/colors.ts:48-52 | "#abc" is the same colour as "#aabbcc" |
| Colors.UnreadableIsBlack | src/utils/colors.ts:53-57 | a code with no hex digit to read (NaN) gives black |
| Colors.ChannelsOfValue | src/utils/colors.ts:53-57 | the shifts and masks take a 24-bit number back apart into its three bytes |
| Colors.SixDigitChannels | src/utils/colors.ts:43-60 | for "#rrggbb", red, green and blue are the values of the three digit pairs, and alpha is kept |
| Colors.HexToRgba | src/utils/colors.ts:43-60 | every channel is between 0 and 255 and alpha is the argument |
| Tooltip.AdjustedPosition | src/components/Tooltip.tsx:15-29 | the box goes 15 px after the cursor when it fits, else it is flipped before it; either way it never covers the cursor |
| Tooltip.Render | src/components/Tooltip.tsx:12-43 | nothing is shown exactly when no point is hovered; otherwise the pseudo titles one row per axis pair |
| Tooltip.ShownKeysArePairKeys | src/components/Tooltip.tsx:43-61 | the rows list the pairs' keys, key then opposite, pair by pair |
| Tooltip.TooltipShowsEveryCategoryOnce | src/components/Tooltip.tsx:43-61 | each of the sixteen categories appears on exactly one line, with its display name and value |
| Tooltip.NullShownAsZero | src/components/Tooltip.tsx:46-47 | a null score is displayed as 0 |
| App.Deleted | src/App.tsx:95-97 | the list after deletion holds exactly the entries whose id differs |
| App.DeletedDistributes | src/App.tsx:96 | deleting keeps the survivors in their original order |
| App.DeletedAbsent | src/App.tsx:96 | deleting an id no entry carries changes nothing |
| App.DeletedIdempotent | src/App.tsx:96 | deleting twice is deleting once |
| App.Replaced | src/App.tsx:207-212 | the entries with the edited id become the submitted entry with that id; all others are unchanged |
| App.ReplacedKeepsOthers | src/App.tsx:207-212 | an edit leaves the entries of other ids as they were, in order |
| App.ReplacedAbsent | src/App.tsx:207-212 | editing an id that is not in the list changes nothing |
| App.Added | src/App.tsx:213-214 | adding appends the submitted entry with id Date.now() and keeps the rest |
| App.DeletedKeepsIdsDistinct | src/App.tsx:95-97 | deleting keeps ids distinct |
| App.ReplacedKeepsIdsDistinct | src/App.tsx:207-212 | editing keeps ids distinct and keeps the same set of ids |
| App.AddedKeepsIdsDistinct | src/App.tsx:213-214 | adding with a fresh Date.now() keeps ids distinct and adds that id |
| App.AppendKeepsIdsDistinct | src/App.tsx:90 | appending entries whose ids are new keeps ids distinct |
| App.ImportAppendKeepsIdsDistinct | src/App.tsx:88-92 | an import keeps ids distinct when none of the ids it assigns is taken |
| App.Visualizer.constructor | src/App.tsx:29-40 | no entries, form hidden, a blank form in add mode |
| App.Visualizer.OpenFormForEdit | src/App.tsx:70-79 | the form is shown, filled with the entry in edit mode, or blank in add mode |
| App.Visualizer.DeleteEntry | src/App.tsx:95-97 | the list loses exactly the entries with the id; the form state is unchanged |
| App.Visualizer.Submit | src/App.tsx:206-218 | in edit mode the entry is replaced, otherwise it is added; the form is reset and hidden |
| App.Visualizer.HandleImport | src/App.tsx:85-93 | imported entries are appended after the existing ones; an error changes nothing |
| App.Visualizer.ResetData | src/App.tsx:99-105 | the list is emptied only when the user confirms |
| Projection.AnchorScoresByPair | src/components/ThreeVisualization.tsx:18-83 | an anchor scores `main` on every pair's key and `opposite` on its opposite |
| Projection.NormalizePair | src/components/ThreeVisualization.tsx:88-97 | the two shares add up to 100: 50/50 when the total is 0, else proportional to the values |
| Projection.NormalizedPairSums | src/components/ThreeVisualization.tsx:85-100 | each pair of an entry is normalised as above, with nulls read as 0 |
| Projection.AnchorRows | src/components/ThreeVisualization.tsx:18-112 | the far-left, far-right and centre anchors have rows of 100, 0 and 50 in every column |
| Projection.CenteredColumnsSumToZero | src/components/ThreeVisualization.tsx:113-119 | every column of the centred matrix sums to 0 |
| Projection.CovarianceSymmetricNonNegative | src/components/ThreeVisualization.tsx:120-132 | the covariance matrix is symmetric with a non-negative diagonal |
| Projection.DeflatedKeepsSymmetry | src/components/ThreeVisualization.tsx:175-181 | deflation keeps a matrix symmetric |
| Projection.ComponentAt | src/components/ThreeVisualization.tsx:169-182 | component r is the power iteration of the covariance deflated by the r earlier components |
| Projection.RemainingSymmetric | src/components/ThreeVisualization.tsx:169-182 | every matrix the power iteration sees is symmetric |
| Projection.Projected | src/components/ThreeVisualization.tsx:185-192 | each projected point keeps its entry's id, colour and pseudo |
| Projection.FindId | src/components/ThreeVisualization.tsx:195 | `find` returns the first point with the id, and nothing only when none has it |
| Projection.VarianceNonNegative | src/components/ThreeVisualization.tsx:236-244 | a variance is never negative, so its square root is defined |
| Projection.Max3 | src/components/ThreeVisualization.tsx:220 | the largest of the three standard deviations |
| Projection.FactorFor | src/components/ThreeVisualization.tsx:220-222 | the scale is 1 when every deviation is 0; otherwise it brings the largest deviation to 5 |
| Projection.PcaShape | src/components/ThreeVisualization.tsx:16-232 | no data gives no points; otherwise the three anchors come first, then every entry in order with its identity, and the centre anchor is the origin |
| Projection.PcaUniformScale | src/components/ThreeVisualization.tsx:194-230 | the output is the raw projection moved so the centre anchor is the origin, then multiplied by one factor |
| Projection.CentreAnchorFound | src/components/ThreeVisualization.tsx:195-197 | the point `find` picks for id -3 is the centre anchor, at position 2 |
| Projection.PcaComponents | src/components/ThreeVisualization.tsx:120-182 | each of the three components comes from a symmetric matrix: the covariance deflated by the earlier components |
| Projection.FillCovariance | src/components/ThreeVisualization.tsx:120-132 | the nested loops fill the 8×8 array with the covariance matrix |
| Projection.Deflate | src/components/ThreeVisualization.tsx:176-181 | the nested loops deflate the array in place by one component |
| Projection.PrincipalComponents | src/components/ThreeVisualization.tsx:169-182 | the loop yields the three components and leaves the array deflated by all three |
| Projection.PerformPca | src/components/ThreeVisualization.tsx:16-233 | performPCA's points are the specified projection |
| Measurement.NormFacts | src/components/ThreeVisualization.tsx:677 | a length is 0 only for the zero vector, and 1 for a unit vector |
| Measurement.NormalizeUnit | src/components/ThreeVisualization.tsx:677 | `normalize()` leaves the zero vector at zero and makes any other vector a unit vector in its direction |
| Measurement.FootIsPerpendicular | src/components/ThreeVisualization.tsx:664-682 | for two distinct extremes the foot lies on the axis and the point minus the foot is orthogonal to it |
| Measurement.FrameRadius | src/components/ThreeVisualization.tsx:693-694 | the radius is the distance from the foot to the point, 0 exactly when the point is on the axis |
| Measurement.CircleFrameOrthonormal | src/components/ThreeVisualization.tsx:693-709 | for a point off the axis, axis direction, tangent and binormal are orthonormal |
| Measurement.FrameThroughPoint | src/components/ThreeVisualization.tsx:693-706 | the point is the foot plus the tangent times the radius |
| Measurement.VertexOnCircle | src/components/ThreeVisualization.tsx:717-726 | each vertex is at the radius from the foot, in the plane through it orthogonal to the axis |
| Measurement.FirstVertexIsPoint | src/components/ThreeVisualization.tsx:717-726 | the circle passes through the clicked point |
| Measurement.CirclePositionsLayout | src/components/ThreeVisualization.tsx:712-730 | the buffer holds 64 vertices, with x, y, z of vertex i at 3i, 3i+1 and 3i+2 |
| Measurement.FillCirclePositions | src/components/ThreeVisualization.tsx:712-730 | the loop fills the buffer with the specified vertex coordinates |
| Interaction.ClampPhi | src/components/ThreeVisualization.tsx:424 | the polar angle is clamped into [0.1, π−0.1] and left alone inside it |
| Interaction.OrbitKeepsCameraOffPoles | src/components/ThreeVisualization.tsx:420-426 | an orbit keeps the camera distance and the camera strictly off the poles |
| Interaction.ZoomFactor | src/components/ThreeVisualization.tsx:482 | scrolling down zooms out and scrolling up zooms in |
| Interaction.ClampLength | src/components/ThreeVisualization.tsx:483 | a distance is clamped into [5, 50], except that 0 stays 0 |
| Interaction.ZoomStaysInRange | src/components/ThreeVisualization.tsx:480-484 | after a wheel event the camera keeps its direction and is between 5 and 50 from the origin, moving the way the scroll says |
| Interaction.Find | src/components/ThreeVisualization.tsx:460 | the entry found carries the id, and nothing only when no entry has it |
| Interaction.FindFirst | src/components/ThreeVisualization.tsx:460 | the entry found is the first one with the id |
| Interaction.AtMostOneOfEach | src/components/ThreeVisualization.tsx:738-797 | the scene holds at most one circle, disk and plane, and none once the refs are null |
| Interaction.Viewer.constructor | src/components/ThreeVisualization.tsx:342-344 | nothing dragged, hovered or clicked; no overlay |
| Interaction.Viewer.RemoveOverlay | src/components/ThreeVisualization.tsx:365-384 | circle, disk and plane leave the scene and their refs are nulled; the rest is unchanged |
| Interaction.Viewer.UpdateCircle | src/components/ThreeVisualization.tsx:685-797 | the scene holds one circle, disk and plane built from the point's frame; old ones are replaced, not duplicated |
| Interaction.Viewer.MouseDown | src/components/ThreeVisualization.tsx:345-407 | a click on the last clicked marker removes the overlay; a click on another marker draws its circle; otherwise the left button starts an orbit and the right button a pan |
| Interaction.Viewer.MouseMove | src/components/ThreeVisualization.tsx:408-475 | orbit while dragging, pan while right-dragging; otherwise a newly hovered marker is reported once, and leaving is reported only after a hover |
| Interaction.Viewer.MouseUp | src/components/ThreeVisualization.tsx:476-479 | both drags end and nothing else changes |
| Interaction.Viewer.Wheel | src/components/ThreeVisualization.tsx:480-484 | the camera zooms and is clamped; nothing else changes |
| Interaction.Viewer.Teardown | src/components/ThreeVisualization.tsx:551-568 | the cleanup leaves no overlay in the scene and nulls the overlay refs; the last clicked and hovered ids, the camera and the drag state are kept |
| Interaction.Viewer.Remount | src/components/ThreeVisualization.tsx:283-570 | a re-run of the effect ends with an empty scene, no overlay, no drag, the pointer at the origin and the given camera, while the last clicked and hovered ids carry over |

## Left out

- three.js rendering is not modelled: the renderer, lights, markers and labels (`makeTextSprite`), the animation loop, marker scaling, resizing, and `dispose`. They draw the state the model describes and compute nothing it uses.
- The raycast is not modelled. The id and position of the first marker hit are parameters.
- The right-drag pan (`extractBasis` and the moves along the camera's right and up vectors) is not modelled. The camera position it produces is a parameter.
- `setFromSpherical`/`lookAt` and the normalisation of theta by `THREE.Spherical` are not modelled. The camera is kept in spherical coordinates.
- The orientation of the disk and the plane (`makeBasis`, `applyMatrix4`) and their geometry sizes are left out. Each overlay object is recorded by the frame it was built from.
- `Math.sqrt`, `Math.cos`, `Math.sin`, the random start and the 100 steps of `powerIteration` are parameters, because Dafny reals have no exact square root or trigonometry.
- IEEE-754 rounding and the `Float32Array` narrowing of the circle positions are not modelled, because numbers are exact reals.
- `performPCA`'s constant `variance: [0.4, 0.3, 0.3]` is not modelled, because nothing reads it.
- Score-to-text conversion in the export and `Number(…)` in the import are parameters. The round trip assumes the conversion is newline- and comma-free and that `Number` reads it back.
- `getColor` and the CSS variables are left out; the three anchor colours are parameters.
- `fetchAndValidateCSV` is not part of this model: it is imported by App.tsx but csvUtils.ts does not define it.
- The `localStorage` load and save, `JSON.parse`, `useParams` and the read-only view are left out as browser I/O.
- The `Blob` download, the `FileReader`, the callback for a non-string read result, the `try`/`catch` and `alert` are left out as I/O. Import failure is modelled as an error value.
- `window.confirm` is left out; its answer is a parameter of `ResetData`.
- `Date.now()` is left out; its reading is a parameter.
- `newFormData()` (formUtils.ts) is left out; the blank form is a parameter.
- EntryForm.tsx, EntryList.tsx, UiKit.tsx and main.tsx are not part of this model: they are presentation.
- The hover callbacks that store `hoveredPoint` and `mousePosition` in App.tsx are left out. Tooltip.Render takes both as arguments.
- Csv.ImportedEntry: a pseudo or colour column with no cell in a row is stored as "" where the source stores `undefined`, because an entry here always has a text field.
- Colors.Expand: string lengths and the character split are counted in Unicode scalar values, where `c.length` and `split("")` count UTF-16 code units. A code holding a character above U+FFFF (an emoji, say) is therefore doubled and parsed differently: for "#a" followed by U+1F600 the source doubles the three code units and reads 170, while the model keeps the two characters and reads 10.
- Colors.ParseHex: numbers of more than 53 bits are not rounded as `parseInt` rounds them. `ToInt32` wraps the exact value modulo 2^32, which agrees for every code of up to 13 hex digits.
- Csv.ImportLines: every row's id is the same `Date.now()` reading `base` plus the row's index, where the source reads the clock once per row, giving ids t_i + i with t_i non-decreasing; ids are strictly increasing in both, but App.ImportAppendKeepsIdsDistinct assumes the single-reading condition that no existing id lies in [base, base + n).
- Csv.AssignField: a column named other than pseudo, color, id or one of the sixteen categories is dropped, where the source stores it on the entry as `Number(value)` (0 for an empty or non-numeric cell) and App keeps and saves it with the entry.
- Interaction.Viewer.RemoveOverlay: removing an object from the scene is modelled as its count dropping to 0. Disposing of its geometry and material is not modelled.
- Interaction.Viewer.UpdateCircle requires the extreme line to exist, as the source's non-null assertion on line 697 does.
- Measurement.FootIsPerpendicular, CircleFrameOrthonormal and VertexOnCircle require the two extremes to differ, because the axis direction is undefined otherwise. The far-left and far-right anchors have different rows, but the model does not prove that they project to different points.
- Interaction.Viewer.MouseMove takes the marker under the pointer as a parameter, so the model does not capture which marker the pointer is over.
- Registering and removing the event listeners is not modelled. Each handler is a method, and `mouseleave` calls `MouseUp` as `mouseup` does.
