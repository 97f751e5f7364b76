/**
 * The operation node (ColorMixer/ViewModels/OperationNodeViewModel.cs): two
 * inputs, one output, and a colour that is the sum or difference of the two
 * upstream colours while both inputs are connected.
 */
module OperationNodes {
  import opened Wrappers
  import opened ColorExtensions
  import opened Model

  /** The underlying type of a C# enum. */
  newtype int32 = x: int | -0x8000_0000 <= x < 0x8000_0000

  /** `OperationType`: its two named values, or any other value of the underlying
      integer (a C# enum variable may hold one, as the tests do with 42). */
  datatype OperationType = Addition | Subtraction | Other(code: int32)

  const DefaultOperation: OperationType := Addition

  /** The colour an operation produces from the colours of input A and input B:
      addition brightens every channel of both, subtraction darkens every channel
      of A, and any other operation value gives the default colour. */
  function Execute(a: Color, b: Color, operation: OperationType): (c: Color)
    ensures operation == Addition ==>
      c.r >= a.r && c.g >= a.g && c.b >= a.b && c.a >= a.a &&
      c.r >= b.r && c.g >= b.g && c.b >= b.b && c.a >= b.a
    ensures operation == Subtraction ==>
      c.r <= a.r && c.g <= a.g && c.b <= a.b && c.a <= a.a
    ensures operation.Other? ==> c == Black
  {
    match operation
    case Addition => Add(a, b)
    case Subtraction => Subtract(a, b)
    case Other(_) => DefaultColor
  }

  /** The node's colour: the operation applied to the upstream colours when both
      inputs are connected, the default colour otherwise. */
  function DerivedColor(operation: OperationType, upstreamA: Option<Color>, upstreamB: Option<Color>): (c: Color)
    ensures c != DefaultColor ==> upstreamA.Some? && upstreamB.Some? && !operation.Other?
  {
    if upstreamA.Some? && upstreamB.Some? then Execute(upstreamA.value, upstreamB.value, operation)
    else DefaultColor
  }

  /** An enum value outside the two named ones, such as 42, yields black. */
  lemma ExecuteUnknownOperation(a: Color, b: Color)
    ensures Execute(a, b, Other(42)) == Black
  {
  }

  /** With an input left unconnected, the node shows the default colour whatever
      the operation and the other input are. */
  lemma UnconnectedIsDefault(operation: OperationType, upstreamA: Option<Color>, upstreamB: Option<Color>)
    requires upstreamA.None? || upstreamB.None?
    ensures DerivedColor(operation, upstreamA, upstreamB) == Black
  {
  }

  /** With both inputs connected, the colour follows the upstream colours and the
      operation: each channel saturates. */
  lemma ConnectedCombinesChannels(operation: OperationType, ca: Color, cb: Color)
    ensures operation == Addition ==>
      var c := DerivedColor(operation, Some(ca), Some(cb));
      c.r as int == Min(ca.r as int + cb.r as int, 255) &&
      c.g as int == Min(ca.g as int + cb.g as int, 255) &&
      c.b as int == Min(ca.b as int + cb.b as int, 255) &&
      c.a as int == Min(ca.a as int + cb.a as int, 255)
    ensures operation == Subtraction ==>
      var c := DerivedColor(operation, Some(ca), Some(cb));
      c.r as int == Max(ca.r as int - cb.r as int, 0) &&
      c.g as int == Max(ca.g as int - cb.g as int, 0) &&
      c.b as int == Max(ca.b as int - cb.b as int, 0) &&
      c.a as int == Max(ca.a as int - cb.a as int, 0)
  {
  }

  /** The operation node. Its base-class part (position, size, colour) is the
      `node` object, which the connectors name as their owner. */
  class OperationNode {
    const node: Node
    const inputA: Connector
    const inputB: Connector
    const output: Connector
    var operation: OperationType
    /** The colour of the node that input A is connected to; None while
        `InputA.ConnectedTo` is null. */
    var upstreamA: Option<Color>
    /** Likewise for input B. */
    var upstreamB: Option<Color>

    ghost predicate Valid()
      reads this, node
    {
      && inputA.direction == Input && inputA.node == node
      && inputB.direction == Input && inputB.node == node
      && output.direction == Output && output.node == node
      && node.color == DerivedColor(operation, upstreamA, upstreamB)
    }

    /** Position and size are never touched by the colour logic. */
    twostate predicate LayoutUnchanged()
      reads this, node
    {
      node.x == old(node.x) && node.y == old(node.y) &&
      node.width == old(node.width) && node.height == old(node.height)
    }

    /** A new node: its three connectors point back at it, the operation is
        addition and, with nothing connected, the colour is the default. */
    constructor(inputAId: nat, inputBId: nat, outputId: nat)
      requires inputAId != inputBId
      ensures Valid() && fresh(node)
      ensures inputA == Connector(inputAId, Input, node)
      ensures inputB == Connector(inputBId, Input, node)
      ensures output == Connector(outputId, Output, node)
      ensures operation == Addition
      ensures upstreamA == None && upstreamB == None
      ensures node.color == DefaultColor
      ensures node.x == 0.0 && node.y == 0.0
      ensures node.width == DefaultWidth && node.height == DefaultHeight
    {
      var n := new Node();
      node := n;
      inputA := Connector(inputAId, Input, n);
      inputB := Connector(inputBId, Input, n);
      output := Connector(outputId, Output, n);
      operation := DefaultOperation;
      upstreamA, upstreamB := None, None;
    }

    /** Re-applies the colour rule after a change to an input or the operation. */
    method Recompute()
      requires inputA.node == node && inputB.node == node && output.node == node
      requires inputA.direction == Input && inputB.direction == Input && output.direction == Output
      modifies node
      ensures Valid() && LayoutUnchanged()
    {
      node.color := DerivedColor(operation, upstreamA, upstreamB);
    }

    /** `InputA.ConnectedTo` changes: `connectedTo` is the colour of the newly
        connected node, or None when the input is disconnected. */
    method SetInputA(connectedTo: Option<Color>)
      requires Valid()
      modifies this, node
      ensures Valid() && LayoutUnchanged()
      ensures upstreamA == connectedTo
      ensures upstreamB == old(upstreamB) && operation == old(operation)
      ensures node.color == DerivedColor(operation, connectedTo, upstreamB)
    {
      upstreamA := connectedTo;
      Recompute();
    }

    /** `InputB.ConnectedTo` changes. */
    method SetInputB(connectedTo: Option<Color>)
      requires Valid()
      modifies this, node
      ensures Valid() && LayoutUnchanged()
      ensures upstreamB == connectedTo
      ensures upstreamA == old(upstreamA) && operation == old(operation)
      ensures node.color == DerivedColor(operation, upstreamA, connectedTo)
    {
      upstreamB := connectedTo;
      Recompute();
    }

    /** The node that input A is connected to changes colour; nothing is observed
        while input A is unconnected. */
    method UpstreamColorChangedA(c: Color)
      requires Valid()
      modifies this, node
      ensures Valid() && LayoutUnchanged()
      ensures upstreamA == if old(upstreamA).Some? then Some(c) else None
      ensures upstreamB == old(upstreamB) && operation == old(operation)
    {
      if upstreamA.Some? {
        upstreamA := Some(c);
        Recompute();
      }
    }

    /** The node that input B is connected to changes colour. */
    method UpstreamColorChangedB(c: Color)
      requires Valid()
      modifies this, node
      ensures Valid() && LayoutUnchanged()
      ensures upstreamB == if old(upstreamB).Some? then Some(c) else None
      ensures upstreamA == old(upstreamA) && operation == old(operation)
    {
      if upstreamB.Some? {
        upstreamB := Some(c);
        Recompute();
      }
    }

    /** Runs the edit command. When it can execute, the current operation is
        passed to the operation interaction (the returned `asked`) and the
        interaction's answer `chosen` becomes the operation; the colour follows. */
    method EditNodeCommand(isNodeBeingAdded: bool, connectingConnector: Option<Connector>,
                           chosen: OperationType)
      returns (asked: Option<OperationType>)
      requires Valid()
      modifies this, node
      ensures Valid() && LayoutUnchanged()
      ensures asked.Some? <==> !isNodeBeingAdded && connectingConnector.None?
      ensures asked.Some? ==> asked.value == old(operation) && operation == chosen
      ensures asked.None? ==> operation == old(operation)
      ensures upstreamA == old(upstreamA) && upstreamB == old(upstreamB)
      ensures node.color == DerivedColor(operation, upstreamA, upstreamB)
    {
      if CanExecute(isNodeBeingAdded, connectingConnector) {
        asked := Some(operation);
        operation := chosen;
        Recompute();
      } else {
        asked := None;
      }
    }
  }

  /** A scenario in the manner of ColorMixer.Tests/ViewModels/OperationNode.cs:
      connecting both inputs shows their sum, changing an upstream colour
      updates it, and disconnecting input B resets it to black. */
  method ConnectAndDisconnect(ca: Color, cb: Color, ca2: Color)
  {
    var op := new OperationNode(0, 1, 2);
    assert op.node.color == Black;
    op.SetInputA(Some(ca));
    assert op.node.color == Black;
    op.SetInputB(Some(cb));
    assert op.node.color == Add(ca, cb);
    op.UpstreamColorChangedA(ca2);
    assert op.node.color == Add(ca2, cb);
    var asked := op.EditNodeCommand(false, None, Subtraction);
    assert asked == Some(Addition);
    assert op.node.color == Subtract(ca2, cb);
    op.SetInputB(None);
    assert op.node.color == Black;
  }
}
