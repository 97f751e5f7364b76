/**
 * The node base class and the connector and connection entities
 * (ColorMixer/Model/Node.cs, ColorMixer/Model/Connector.cs and the plain
 * connector and connection view-models).
 */
module Model {
  import opened Wrappers
  import opened ColorExtensions
  import opened Formatting

  // ---------------------------------------------------------------------
  // Connectors and connections

  datatype Direction = Input | Output

  /** A connector: its identity, its direction and the node it belongs to. */
  datatype Connector = Connector(id: nat, direction: Direction, node: Node)

  /** A connection drawn from an output connector to an input connector. */
  datatype Connection = Connection(from: Connector, to: Connector)

  // ---------------------------------------------------------------------
  // Node defaults and the title

  const DefaultWidth: real := 150.0
  const DefaultHeight: real := 150.0
  const DefaultColor: Color := Black

  /** The title shown for a colour: `R: {R} / G: {G} / B {B}` (no colon after B).
      Each channel takes one to three digits, so a title is 17 to 23 characters. */
  function TitleOf(c: Color): (t: string)
    ensures 17 <= |t| <= 23
    ensures t[..3] == "R: "
  {
    ShortDecimal(c.r as nat);
    ShortDecimal(c.g as nat);
    ShortDecimal(c.b as nat);
    "R: " + Decimal(c.r as nat) + " / G: " + Decimal(c.g as nat) + " / B " + Decimal(c.b as nat)
  }

  /** Reads a title back into its red, green and blue values. */
  function ParseTitle(t: string): Option<(nat, nat, nat)>
  {
    match Chomp("R: ", t)
    case None => None
    case Some(t1) =>
      match Number(t1)
      case None => None
      case Some((r, t2)) =>
        match Chomp(" / G: ", t2)
        case None => None
        case Some(t3) =>
          match Number(t3)
          case None => None
          case Some((g, t4)) =>
            match Chomp(" / B ", t4)
            case None => None
            case Some(t5) =>
              match Number(t5)
              case None => None
              case Some((b, t6)) => if t6 == [] then Some((r, g, b)) else None
  }

  /** The title determines the red, green and blue channels. */
  lemma {:induction false} TitleRoundTrip(c: Color)
    ensures ParseTitle(TitleOf(c)) == Some((c.r as nat, c.g as nat, c.b as nat))
  {
    var r, g, b := c.r as nat, c.g as nat, c.b as nat;
    var tail2 := " / B " + Decimal(b);
    var tail1 := " / G: " + Decimal(g) + tail2;
    assert TitleOf(c) == "R: " + (Decimal(r) + tail1);
    ChompConcat("R: ", Decimal(r) + tail1);
    NumberDecimal(r, tail1);
    assert tail1 == " / G: " + (Decimal(g) + tail2);
    ChompConcat(" / G: ", Decimal(g) + tail2);
    NumberDecimal(g, tail2);
    ChompConcat(" / B ", Decimal(b) + []);
    assert Decimal(b) + [] == Decimal(b);
    NumberDecimal(b, []);
  }

  /** Two colours have the same title exactly when their red, green and blue agree:
      alpha never shows in the title. */
  lemma TitleIdentifiesRgb(c1: Color, c2: Color)
    ensures TitleOf(c1) == TitleOf(c2) <==> (c1.r, c1.g, c1.b) == (c2.r, c2.g, c2.b)
  {
    TitleRoundTrip(c1);
    TitleRoundTrip(c2);
  }

  /** The worked value of ColorMixer.Tests/Model/Node.cs. */
  lemma TitleExample(a: byte)
    ensures TitleOf(Color(a, 12, 34, 56)) == "R: 12 / G: 34 / B 56"
  {
  }

  // ---------------------------------------------------------------------
  // Commands

  /** The can-execute rule of the delete and edit commands: no node is being added
      and no connection is half made. */
  predicate CanExecute(isNodeBeingAdded: bool, connectingConnector: Option<Connector>)
    ensures isNodeBeingAdded ==> !CanExecute(isNodeBeingAdded, connectingConnector)
    ensures connectingConnector.Some? ==> !CanExecute(isNodeBeingAdded, connectingConnector)
  {
    !isNodeBeingAdded && connectingConnector == None
  }

  // ---------------------------------------------------------------------
  // The node

  /** A node on the canvas: its position, its size and its colour. */
  class Node {
    var x: real
    var y: real
    var width: real
    var height: real
    var color: Color

    constructor()
      ensures x == 0.0 && y == 0.0
      ensures width == DefaultWidth && height == DefaultHeight && color == DefaultColor
    {
      x, y := 0.0, 0.0;
      width, height := DefaultWidth, DefaultHeight;
      color := DefaultColor;
    }

    /** The title, derived from the current colour. */
    function Title(): (t: string)
      reads this
      ensures ParseTitle(t) == Some((color.r as nat, color.g as nat, color.b as nat))
    {
      TitleRoundTrip(color);
      TitleOf(color)
    }

    method SetX(value: real)
      modifies this
      ensures x == value
      ensures y == old(y) && width == old(width) && height == old(height) && color == old(color)
    {
      x := value;
    }

    method SetY(value: real)
      modifies this
      ensures y == value
      ensures x == old(x) && width == old(width) && height == old(height) && color == old(color)
    {
      y := value;
    }

    method SetWidth(value: real)
      modifies this
      ensures width == value
      ensures x == old(x) && y == old(y) && height == old(height) && color == old(color)
    {
      width := value;
    }

    method SetHeight(value: real)
      modifies this
      ensures height == value
      ensures x == old(x) && y == old(y) && width == old(width) && color == old(color)
    {
      height := value;
    }

    method SetColor(value: Color)
      modifies this
      ensures color == value
      ensures x == old(x) && y == old(y) && width == old(width) && height == old(height)
    {
      color := value;
    }

    /** Runs the delete command: when it can execute, the node hands itself to the
        delete interaction (the request returned); otherwise nothing is sent. */
    method DeleteNodeCommand(isNodeBeingAdded: bool, connectingConnector: Option<Connector>)
      returns (request: Option<Node>)
      ensures request.Some? <==> !isNodeBeingAdded && connectingConnector.None?
      ensures request.Some? ==> request.value == this
    {
      if CanExecute(isNodeBeingAdded, connectingConnector) {
        request := Some(this);
      } else {
        request := None;
      }
    }
  }
}
