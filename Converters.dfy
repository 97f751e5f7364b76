/**
 * Converts an operation to the glyph drawn on an operation node
 * (ColorMixer/Converters/OperationTypeToTextConverter.cs).
 */
module OperationTypeToTextConverter {
  import opened Wrappers
  import opened Formatting
  import opened OperationNodes

  /** The Segoe MDL2 Assets glyphs for "add" and "remove". */
  const AdditionGlyph: string := "\U{E710}"
  const SubtractionGlyph: string := "\U{E738}"

  /** The message of the exception thrown for an operation value that has no glyph;
      C# prints such an enum value as its underlying integer. */
  function UnknownOperationMessage(code: int32): (m: string)
    ensures |m| > 26 && m[..24] == "Unknown operation type '" && m[|m| - 2..] == "'."
    ensures code < 0 <==> m[24] == '-'
  {
    "Unknown operation type '" + IntToString(code as int) + "'."
  }

  /** The value can be read back from the message: its digits follow the opening
      quote, after a minus sign when the value is negative. */
  lemma UnknownOperationMessageReadBack(code: int32)
    ensures code >= 0 ==>
      Number(UnknownOperationMessage(code)[24..]) == Some((code as nat, "'."))
    ensures code < 0 ==>
      Number(UnknownOperationMessage(code)[25..]) == Some(((-(code as int)) as nat, "'."))
  {
    var quote, text := "Unknown operation type '", IntToString(code as int);
    var m := UnknownOperationMessage(code);
    assert m == quote + (text + "'.");
    assert m[24..] == text + "'." by {
      assert |quote| == 24;
    }
    if code >= 0 {
      NumberDecimal(code as nat, "'.");
    } else {
      var digits := Decimal((-(code as int)) as nat);
      assert text + "'." == "-" + (digits + "'.");
      assert m[25..] == digits + "'.";
      NumberDecimal((-(code as int)) as nat, "'.");
    }
  }

  /** Each named operation has its own one-character glyph; any other value fails. */
  function Convert(operation: OperationType): (r: Result<string, Exception>)
    ensures r.Success? <==> !operation.Other?
    ensures r.Success? ==> |r.value| == 1
    ensures operation == Addition ==> r == Success(AdditionGlyph)
    ensures operation == Subtraction ==> r == Success(SubtractionGlyph)
    ensures operation.Other? ==> r == Failure(InvalidOperationException(UnknownOperationMessage(operation.code)))
  {
    match operation
    case Addition => Success(AdditionGlyph)
    case Subtraction => Success(SubtractionGlyph)
    case Other(code) => Failure(InvalidOperationException(UnknownOperationMessage(code)))
  }

  /** Converting back is never supported, whatever the text. */
  function ConvertBack(value: string): (r: Result<OperationType, Exception>)
    ensures r == Failure(NotSupportedException)
  {
    Failure(NotSupportedException)
  }

  /** The glyph identifies the operation: the two named operations never share one. */
  lemma GlyphsDistinct(o1: OperationType, o2: OperationType)
    requires Convert(o1).Success? && Convert(o2).Success?
    ensures Convert(o1) == Convert(o2) <==> o1 == o2
  {
    assert AdditionGlyph[0] != SubtractionGlyph[0];
  }

  /** The test value `int.MaxValue` gives the message with its decimal digits. */
  lemma UnknownOperationExample()
    ensures Convert(Other(2147483647))
         == Failure(InvalidOperationException("Unknown operation type '" + "2147483647" + "'."))
  {
    assert Decimal(2) == "2";
    assert Decimal(21) == "21";
    assert Decimal(214) == "214";
    assert Decimal(2147) == "2147";
    assert Decimal(21474) == "21474";
    assert Decimal(214748) == "214748";
    assert Decimal(2147483) == "2147483";
    assert Decimal(21474836) == "21474836";
    assert Decimal(214748364) == "214748364";
    assert Decimal(2147483647) == "2147483647";
    assert IntToString(2147483647) == "2147483647";
  }
}

/**
 * Converts a uniform border thickness to its side length and back
 * (ColorMixer/Converters/ThicknessToDoubleConverter.cs). The length type is
 * left generic: only equality of lengths matters here.
 */
module ThicknessToDoubleConverter {
  import opened Wrappers

  /** A WPF `Thickness`: the widths of the four sides. */
  datatype Thickness<L> = Thickness(left: L, top: L, right: L, bottom: L)

  predicate IsUniform<L(==)>(t: Thickness<L>)
  {
    t.left == t.top && t.top == t.right && t.right == t.bottom
  }

  const NonUniformMessage: string := "Thickness must have uniform length on all sides."

  /** A uniform thickness converts to its side length; any other thickness fails. */
  function Convert<L(==)>(t: Thickness<L>): (r: Result<L, Exception>)
    ensures r.Success? <==> IsUniform(t)
    ensures r.Success? ==> r.value == t.left && r.value == t.top && r.value == t.right && r.value == t.bottom
    ensures r.Failure? ==> r.error == InvalidOperationException(NonUniformMessage)
  {
    if IsUniform(t) then Success(t.left)
    else Failure(InvalidOperationException(NonUniformMessage))
  }

  /** `new Thickness(length)`: every side gets the length. */
  function ConvertBack<L>(length: L): (t: Thickness<L>)
    ensures t.left == length && t.top == length && t.right == length && t.bottom == length
  {
    Thickness(length, length, length, length)
  }

  /** A length survives the trip to a thickness and back. */
  lemma ConvertBackThenConvert<L>(length: L)
    ensures Convert(ConvertBack(length)) == Success(length)
  {
  }

  /** A thickness that converts is rebuilt exactly by converting back. */
  lemma ConvertThenConvertBack<L>(t: Thickness<L>)
    requires Convert(t).Success?
    ensures ConvertBack(Convert(t).value) == t
  {
  }
}
