# ColorMixer editor logic in Dafny

ColorMixer is a node-based colour editor. The user places nodes on a canvas:
colour sources, operation nodes and result nodes. Each node has input and
output connectors. Drawing a connection from an output to an input makes
colours flow through the graph. This project models the part of the
editor that is logic rather than WPF plumbing:

- **Colour arithmetic** (`ColorExtensions.dfy`). Byte addition clamps at 255
  and byte subtraction clamps at 0. Colours combine channel by channel over
  alpha, red, green and blue.
- **The operation node** (`OperationNode.dfy`). `Execute` dispatches on the
  operation. The node's colour is the combined upstream colour only while
  both inputs are connected, and black otherwise. The edit command replaces
  the operation when the mixer is idle. The reactive subscriptions become
  "recompute after each change": every method that changes an input, an
  upstream colour or the operation re-applies the colour rule, and the class
  invariant `Valid()` says the colour always equals the rule's result.
- **The mixer** (`Mixer.dfy`). It owns the node and connection lists. It runs
  the two-click connect handshake, modelled as two calls of
  `HandleConnectionRequest`. The second call answers both requesters. It
  cascades a node deletion to the node's connections and to the
  `ConnectedTo` of their endpoints, and it adds a node at a picked point.
- **`RemoveRange`** (`ReactiveListExtensions.dfy`). The list is a class over
  a `seq`. `RemoveRange` is a loop that calls `Remove` once per element of a
  snapshot of the items. Its specification `RemoveAll` is characterised by
  lemmas: it is multiset difference, and it keeps every other element in its
  original order.
- **The node base** (`Model.dfy`). This covers the defaults, the setters,
  the delete command and its guard, and the title `R: {R} / G: {G} / B {B}`.
  A parser reads the title back, which shows that the title determines red,
  green and blue and ignores alpha.
- **Two value converters** (`Converters.dfy`). One maps an operation to its
  glyph. The other maps a uniform thickness to its side length and back.

Where the code and its descriptions disagree, the model follows the code:

- The test `Disabled_WhenConnectingSource` in
  `ColorMixer.Tests/ViewModels/InConnector.cs` (lines 82-110) expects an
  input connector of the node being connected from to be disabled, which
  would rule out a connection between two connectors of the same node.
  `HandleConnectionRequest` in `ColorMixer/ViewModels/MixerViewModel.cs`
  (lines 201-244) has no such check, so the model accepts such connections
  too.
- A test in `ColorMixer.Tests/ViewModels/OperationNode.cs` expects
  subtracting two opaque colours to stay opaque. The code subtracts alpha
  like any other channel, so the result is fully transparent. The model
  follows the code, and `ColorExtensions.OpaqueAlpha` states it.

## Model

| member | source | states |
|---|---|---|
| `ColorExtensions.AddByte` | ColorMixer/Extensions/ColorExtensions.cs:25-26 | byte addition returns min(a + b, 255): it saturates instead of wrapping |
| `ColorExtensions.SubtractByte` | ColorMixer/Extensions/ColorExtensions.cs:28-29 | byte subtraction returns max(a - b, 0): it saturates instead of wrapping |
| `ColorExtensions.Add` | ColorMixer/Extensions/ColorExtensions.cs:7-14 | each of R, G, B and A of the sum is the saturating sum of that channel alone |
| `ColorExtensions.Subtract` | ColorMixer/Extensions/ColorExtensions.cs:16-23 | each of R, G, B and A of the difference is the saturating difference of that channel alone |
| `ColorExtensions.AddByteNeverWraps` | ColorMixer/Extensions/ColorExtensions.cs:25-26 | the sum is at least each operand; it is exact up to 255 and 255 beyond |
| `ColorExtensions.AddByteCommutes` | ColorMixer/Extensions/ColorExtensions.cs:25-26 | byte addition is commutative |
| `ColorExtensions.AddByteIdentity` | ColorMixer/Extensions/ColorExtensions.cs:25-26 | 0 is an identity on either side |
| `ColorExtensions.SubtractByteNeverWraps` | ColorMixer/Extensions/ColorExtensions.cs:28-29 | the difference is at most the left operand; it is exact when a >= b and 0 otherwise |
| `ColorExtensions.SubtractByteIdentity` | ColorMixer/Extensions/ColorExtensions.cs:28-29 | 0 is a right identity and x - x is 0 |
| `ColorExtensions.ByteExamples` | ColorMixer.Tests/Extensions/Color.cs:33-43 | 200+100 = 255, 100+100 = 200, 100-200 = 0, 200-100 = 100 |
| `ColorExtensions.ChannelsIndependent` | ColorMixer/Extensions/ColorExtensions.cs:7-23 | a result channel depends only on that channel of the operands |
| `ColorExtensions.OpaqueAlpha` | ColorMixer/Extensions/ColorExtensions.cs:7-23 | alpha combines like any channel: two opaque colours add to A = 255 and subtract to A = 0 |
| `ColorExtensions.AddCommutes` | ColorMixer/Extensions/ColorExtensions.cs:7-14 | colour addition is commutative |
| `ColorExtensions.SubtractSelfIsTransparentBlack` | ColorMixer/Extensions/ColorExtensions.cs:16-23 | a colour minus itself is all zeros, alpha included |
| `Formatting.Decimal` | ColorMixer/Model/Node.cs:49 | the decimal text of a number is non-empty, all digits, and has no leading zero |
| `Formatting.ShortDecimal` | ColorMixer/Model/Node.cs:49 | a byte value takes at most three digits in the title |
| `Formatting.DecimalRoundTrip` | ColorMixer/Model/Node.cs:49 | reading the decimal text back gives the number |
| `Model.TitleOf` | ColorMixer/Model/Node.cs:47-50 | the title starts with `R: ` and, with one to three digits per channel, is 17 to 23 characters long |
| `Model.TitleRoundTrip` | ColorMixer/Model/Node.cs:47-50 | parsing the title `R: {R} / G: {G} / B {B}` gives back R, G and B |
| `Model.TitleIdentifiesRgb` | ColorMixer/Model/Node.cs:49 | two colours share a title iff their R, G and B agree, so alpha never shows |
| `Model.TitleExample` | ColorMixer.Tests/Model/Node.cs:71-97 | R 12, G 34, B 56 give exactly `R: 12 / G: 34 / B 56`, with no colon after B |
| `Model.CanExecute` | ColorMixer/Model/Node.cs:59-64 | the delete and edit commands are disabled while a node is being added and while a connector is pending |
| `Model.Node.Title` | ColorMixer/Model/Node.cs:71 | the node's title parses back to its current R, G and B |
| `Model.Node.constructor` | ColorMixer/Model/Node.cs:25-37 | a new node has width 150, height 150 and colour black |
| `Model.Node.SetX` | ColorMixer/Model/Node.cs:73-77 | stores the value in X and changes no other field |
| `Model.Node.SetY` | ColorMixer/Model/Node.cs:79-83 | stores the value in Y and changes no other field |
| `Model.Node.SetWidth` | ColorMixer/Model/Node.cs:85-89 | stores the value in Width and changes no other field |
| `Model.Node.SetHeight` | ColorMixer/Model/Node.cs:91-95 | stores the value in Height and changes no other field |
| `Model.Node.SetColor` | ColorMixer/Model/Node.cs:97-101 | stores the value in Color and changes no other field |
| `Model.Node.DeleteNodeCommand` | ColorMixer/Model/Node.cs:53-64 | the node sends itself to the delete interaction iff no node is being added and no connector is pending |
| `ReactiveLists.RemoveFirst` | ColorMixer/Extensions/ReactiveListExtensions.cs:13 | `Remove` drops one occurrence when the element is present (length minus one) and changes nothing otherwise |
| `ReactiveLists.RemoveFirstSplices` | ColorMixer/Extensions/ReactiveListExtensions.cs:13 | the occurrence removed is the first one |
| `ReactiveLists.RemoveFirstAfter` | ColorMixer/Extensions/ReactiveListExtensions.cs:13 | removing `x` from `a + [x] + b`, where `a` lacks `x`, leaves `a + b` |
| `ReactiveLists.ReactiveList.Remove` | ColorMixer/Extensions/ReactiveListExtensions.cs:13 | removes the first occurrence and reports whether the element was present |
| `ReactiveLists.ReactiveList.RemoveRange` | ColorMixer/Extensions/ReactiveListExtensions.cs:9-15 | the loop over the snapshot leaves the list equal to `RemoveAll` of the old list and the items |
| `ReactiveLists.RemoveAll` | ColorMixer/Extensions/ReactiveListExtensions.cs:9-15 | the specification of `RemoveRange`: applying `Remove` for each item in order never adds an element |
| `ReactiveLists.RemoveAllMultiset` | ColorMixer/Extensions/ReactiveListExtensions.cs:11-14 | the result is the multiset difference: one occurrence of each item present is removed, nothing else |
| `ReactiveLists.RemoveAllLength` | ColorMixer/Extensions/ReactiveListExtensions.cs:13 | the length drops by exactly the number of items found and removed |
| `ReactiveLists.RemoveAllKeepsOthers` | ColorMixer/Extensions/ReactiveListExtensions.cs:11-14 | elements not among the items keep their original relative order |
| `ReactiveLists.RemoveAllNothing` | ColorMixer/Extensions/ReactiveListExtensions.cs:11-14 | an empty `items` leaves the list unchanged |
| `OperationNodes.Execute` | ColorMixer/ViewModels/OperationNodeViewModel.cs:115-128 | Addition gives channels at least both inputs', Subtraction gives channels at most A's, and any other value gives black |
| `OperationNodes.DerivedColor` | ColorMixer/ViewModels/OperationNodeViewModel.cs:54-63 | the node shows a colour other than black only when both inputs are connected and the operation is a named one |
| `OperationNodes.ExecuteUnknownOperation` | ColorMixer.Tests/ViewModels/OperationNode.cs:98-113 | the undefined operation value 42 gives black |
| `OperationNodes.UnconnectedIsDefault` | ColorMixer/ViewModels/OperationNodeViewModel.cs:59-61 | with either input unconnected the colour is black, whatever the operation |
| `OperationNodes.ConnectedCombinesChannels` | ColorMixer/ViewModels/OperationNodeViewModel.cs:54-63 | with both inputs connected, every channel is the saturating sum or difference of the upstream channels |
| `OperationNodes.OperationNode.constructor` | ColorMixer/ViewModels/OperationNodeViewModel.cs:33-50 | the operation starts as Addition, the colour as black, and InputA, InputB and Output all name the new node |
| `OperationNodes.OperationNode.SetInputA` | ColorMixer/ViewModels/OperationNodeViewModel.cs:54-63 | connecting or disconnecting input A recomputes the colour by the rule; nothing else changes |
| `OperationNodes.OperationNode.SetInputB` | ColorMixer/ViewModels/OperationNodeViewModel.cs:54-63 | connecting or disconnecting input B recomputes the colour by the rule; nothing else changes |
| `OperationNodes.OperationNode.UpstreamColorChangedA` | ColorMixer/ViewModels/OperationNodeViewModel.cs:65-74 | a colour change upstream of a connected input A is taken up and the colour recomputed |
| `OperationNodes.OperationNode.UpstreamColorChangedB` | ColorMixer/ViewModels/OperationNodeViewModel.cs:65-74 | a colour change upstream of a connected input B is taken up and the colour recomputed |
| `OperationNodes.OperationNode.EditNodeCommand` | ColorMixer/ViewModels/OperationNodeViewModel.cs:76-85 | iff no node is being added and no connector is pending, the current operation goes to the interaction, its answer is stored and the colour recomputed |
| `Mixer.Link` | ColorMixer/ViewModels/MixerViewModel.cs:220-239 | a connection is made iff the two directions differ; it always leads from the Output to the Input of the two |
| `Mixer.Answer` | ColorMixer/ViewModels/MixerViewModel.cs:209-218 | a requester receives the other connector when its direction is the opposite one, and null otherwise |
| `Mixer.Touching` | ColorMixer/ViewModels/MixerViewModel.cs:70-71 | the query returns exactly the listed connections that touch the node, drawn from the list |
| `Mixer.Untouched` | ColorMixer/ViewModels/MixerViewModel.cs:70-78 | the connections left are exactly the listed ones that do not touch the node |
| `Mixer.EndpointsMembers` | ColorMixer/ViewModels/MixerViewModel.cs:72-76 | a connector is disconnected by the cascade iff it is at one end of a removed connection |
| `Mixer.DisconnectTouching` | ColorMixer/ViewModels/MixerViewModel.cs:72-76 | both ends of every touching connection lose `ConnectedTo`; every other connector keeps its entry unchanged |
| `Mixer.RemoveTouching` | ColorMixer/ViewModels/MixerViewModel.cs:70-78 | removing the touching connections with `RemoveRange` leaves exactly the others, in order |
| `Mixer.MixerViewModel.constructor` | ColorMixer/ViewModels/MixerViewModel.cs:42-51 | the mixer starts with no nodes, no connections and no pending connector |
| `Mixer.MixerViewModel.HandleConnectionRequest` | ColorMixer/ViewModels/MixerViewModel.cs:201-244 | the first request becomes pending and adds nothing; the second appends at most one well-directed connection, answers both requesters and clears the pending state |
| `Mixer.MixerViewModel.DeleteNode` | ColorMixer/ViewModels/MixerViewModel.cs:67-82 | connections touching the node are removed, their endpoints disconnected, the node removed; the rest keeps its order |
| `Mixer.MixerViewModel.AddNode` | ColorMixer/ViewModels/MixerViewModel.cs:85-137 | a cancelled pick adds nothing; otherwise exactly one node is appended, placed at the picked point |
| `Mixer.MixerViewModel.SetConnectedTo` | ColorMixer/ViewModels/InConnectorViewModel.cs:38-42 | setting `ConnectedTo` records the target, or null, for that connector alone |
| `OperationTypeToTextConverter.Convert` | ColorMixer/Converters/OperationTypeToTextConverter.cs:10-26 | Addition gives U+E710, Subtraction gives U+E738, and any other value fails with `Unknown operation type '{value}'.` |
| `OperationTypeToTextConverter.ConvertBack` | ColorMixer/Converters/OperationTypeToTextConverter.cs:28-32 | converting back always fails as not supported |
| `OperationTypeToTextConverter.UnknownOperationMessage` | ColorMixer/Converters/OperationTypeToTextConverter.cs:24 | the message is `Unknown operation type '…'.`, and the value inside starts with `-` exactly when it is negative |
| `OperationTypeToTextConverter.UnknownOperationMessageReadBack` | ColorMixer/Converters/OperationTypeToTextConverter.cs:24 | every value, negative ones included, can be read back from the message: its digits follow the quote, after the `-` sign when negative |
| `OperationTypeToTextConverter.GlyphsDistinct` | ColorMixer/Converters/OperationTypeToTextConverter.cs:17-21 | the two operations have different glyphs |
| `OperationTypeToTextConverter.UnknownOperationExample` | ColorMixer.Tests/Converters/OperationTypeToText.cs:44-59 | the value int.MaxValue fails with `Unknown operation type '2147483647'.` |
| `ThicknessToDoubleConverter.Convert` | ColorMixer/Converters/ThicknessToDoubleConverter.cs:10-26 | a thickness converts iff its four sides are equal, to that side; otherwise it fails with the uniform-length message |
| `ThicknessToDoubleConverter.ConvertBack` | ColorMixer/Converters/ThicknessToDoubleConverter.cs:28-32 | converting a length back gives a thickness with that length on all four sides |
| `ThicknessToDoubleConverter.ConvertBackThenConvert` | ColorMixer/Converters/ThicknessToDoubleConverter.cs:15-31 | converting back and then converting returns the length |
| `ThicknessToDoubleConverter.ConvertThenConvertBack` | ColorMixer/Converters/ThicknessToDoubleConverter.cs:15-31 | a thickness that converts is rebuilt exactly by converting back |

## Left out

- Views, controls, dialogs and the main window are WPF code. So are node bounds clamping and arrow geometry, which work on live `double` layout sizes.
- The service locator and DI wiring are left out. Wherever the code asks the locator for a node or a connector, the model takes it as a parameter. This covers `AddNode`'s node and the connector ids of `OperationNode`.
- Interaction channels are left out. Interaction inputs and answers are plain method parameters and results. Examples are the picked point, the chosen operation, and the node sent for deletion.
- The reactive plumbing is left out: `WhenAnyValue`, `BindTo`, `ToProperty`, activation and disposables. Each operation-node method re-applies the colour rule itself. `Node.Title` is a function of the current colour.
- The `await` in the connect handshake is left out. The first requester's answer is returned by the second call as `toFirst`.
- Mixer.MixerViewModel.DeleteNode: clearing `ConnectedTo` does not reach an `OperationNode` object. An operation node's inputs change only through its own `SetInputA`/`SetInputB`.
- Mixer.MixerViewModel.AddNode: it stands for all three add-node commands. Their bodies are the same apart from the node type asked of the locator, and that node is a parameter here.
- The node type of the mixer's list is the `Node` base class. The colour and result node view-models add no logic to the mixer.
- `ColorNodeViewModel`, `ResultNodeViewModel`, `ColorToBrushConverter` and the legacy view-models are not part of this model.
- Connector `IsEnabled`/`IsConnected` rules and result-node colour propagation are asserted by tests but absent from the modelled code, so they are not modelled.
- `CreateData` in `MixerViewModel` is unused seed data and is left out.
- `double` positions and sizes are modelled as `real`, so NaN and rounding are not modelled.
- ThicknessToDoubleConverter.Convert: lengths are a generic type with equality. A NaN side, which is unequal to itself and makes the .NET check fail, is not modelled.
- `OperationType.cs` is not part of this model. The two named values are constructors of their own. `Other(code)` stands for every other value of the enum's underlying 32-bit integer. `Other` never holds the code of a named value: a code equal to `Addition`'s or `Subtraction`'s is that constructor, not `Other`.
