/**
 * `EvenNumberAttribute`: a validation rule that accepts an even 32-bit
 * integer and rejects everything else, with one message for odd integers and
 * another for values that are not integers at all (null included). A custom
 * `ErrorMessage` replaces both.
 *
 * As written, the rule returns its message template unformatted, so the
 * `{0}` placeholder for the member's name reaches the caller as is.
 * `IsValid` models that; `IsValidFormatted` is the rule with the placeholder
 * filled in, as the validation framework's own messages are.
 */
module Validation {
  import opened Wrappers

  newtype Int32 = x: int | -0x8000_0000 <= x < 0x8000_0000

  /** The validated value (an `object?`): null, a boxed `int`, or any other object. */
  datatype Value = Null | Int32Value(n: Int32) | OtherValue

  /** `ValidationResult.Success` (null), or a result carrying an error message. */
  datatype ValidationResult = Success | Failure(errorMessage: string)

  const Placeholder: string := "{0}"
  const EvenTail: string := " must be an even number."
  const IntegerTail: string := " must be a valid integer."
  /** "The {0} must be an even number." */
  const EvenMessage: string := "The " + Placeholder + EvenTail
  /** "The {0} must be a valid integer." */
  const IntegerMessage: string := "The " + Placeholder + IntegerTail

  /** C#'s `a % 2`: the remainder of truncated division by two, which takes the sign of `a`. */
  function RemainderByTwo(a: int): (r: int)
    ensures a >= 0 ==> r == 0 || r == 1
    ensures a < 0 ==> r == 0 || r == -1
    ensures (a - r) % 2 == 0
  {
    if a >= 0 then a % 2 else -((-a) % 2)
  }

  /** The truncated remainder is zero exactly when the number is even, negative numbers included. */
  lemma RemainderZeroIffEven(a: int)
    ensures RemainderByTwo(a) == 0 <==> a % 2 == 0
  {
    var r := RemainderByTwo(a);
    if r == 1 {
      assert a == (a - 1) + 1;
    } else if r == -1 {
      assert a == (a + 1) - 1;
    }
  }

  /** Replaces every `{0}` in `template` by `arg`, as `string.Format` does with one argument. */
  function Format(template: string, arg: string): string
    decreases |template|
  {
    if |template| >= 3 && template[0] == '{' && template[1] == '0' && template[2] == '}'
    then arg + Format(template[3..], arg)
    else if template == [] then []
    else [template[0]] + Format(template[1..], arg)
  }

  datatype EvenNumberAttribute = EvenNumberAttribute(errorMessage: Option<string>) {

    /**
     * The rule as written: success for an even `int`; otherwise the custom
     * message or the default template for the case, returned unformatted.
     */
    function IsValid(value: Value): (r: ValidationResult)
      ensures r == Success <==> value.Int32Value? && value.n as int % 2 == 0
      ensures value.Int32Value? && value.n as int % 2 != 0 ==> r == Failure(errorMessage.GetOr(EvenMessage))
      ensures !value.Int32Value? ==> r == Failure(errorMessage.GetOr(IntegerMessage))
    {
      match value
      case Int32Value(n) =>
        RemainderZeroIffEven(n as int);
        if RemainderByTwo(n as int) == 0 then Success else Failure(errorMessage.GetOr(EvenMessage))
      case _ => Failure(errorMessage.GetOr(IntegerMessage))
    }

    /** The rule with the message formatted for the member's display name. */
    function IsValidFormatted(value: Value, displayName: string): (r: ValidationResult)
      ensures r == Success <==> IsValid(value) == Success
      ensures r.Failure? ==> r.errorMessage == Format(IsValid(value).errorMessage, displayName)
    {
      match IsValid(value)
      case Success => Success
      case Failure(message) => Failure(Format(message, displayName))
    }
  }

  /**
   * Every value gets exactly one of the three outcomes; without a custom
   * message the two error outcomes are told apart by their text.
   */
  lemma ExactlyOneOutcome(value: Value)
    ensures var r := EvenNumberAttribute(None).IsValid(value);
      (r == Success) || (r == Failure(EvenMessage)) || (r == Failure(IntegerMessage))
    ensures EvenMessage != IntegerMessage
    ensures var r := EvenNumberAttribute(None).IsValid(value);
      (r == Failure(EvenMessage) <==> value.Int32Value? && value.n as int % 2 != 0)
      && (r == Failure(IntegerMessage) <==> !value.Int32Value?)
  {
    assert EvenMessage[17] != IntegerMessage[17];
  }

  /** A custom message is the message of both kinds of failure. */
  lemma CustomMessageOverrides(message: string, value: Value)
    ensures EvenNumberAttribute(Some(message)).IsValid(value) == Success
         || EvenNumberAttribute(Some(message)).IsValid(value) == Failure(message)
  {
  }

  /** Negative even numbers are accepted, negative odd ones rejected as odd. */
  lemma NegativeNumbers()
    ensures EvenNumberAttribute(None).IsValid(Int32Value(-4)) == Success
    ensures EvenNumberAttribute(None).IsValid(Int32Value(-3)) == Failure(EvenMessage)
    ensures EvenNumberAttribute(None).IsValid(Int32Value(-0x8000_0000)) == Success
  {
  }

  /** The text around the placeholder in each default message holds no brace. */
  lemma MessageParts()
    ensures '{' !in "The " && '{' !in EvenTail && '{' !in IntegerTail
  {
  }

  /**
   * As written, the message for an odd number still holds the `{0}`
   * placeholder instead of the member's name.
   */
  lemma UnformattedPlaceholder()
    ensures var r := EvenNumberAttribute(None).IsValid(Int32Value(3));
      r.Failure? && r.errorMessage[4..7] == Placeholder
  {
    var r := EvenNumberAttribute(None).IsValid(Int32Value(3));
    assert r == Failure(EvenMessage);
    MessageParts();
    assert ("The " + Placeholder + EvenTail)[4..7] == Placeholder;
  }

  lemma {:induction false} FormatPlain(s: string, arg: string)
    requires '{' !in s
    ensures Format(s, arg) == s
  {
    if s != [] {
      assert s[0] != '{';
      FormatPlain(s[1..], arg);
    }
  }

  lemma {:induction false} FormatOne(p: string, q: string, arg: string)
    requires '{' !in p && '{' !in q
    ensures Format(p + Placeholder + q, arg) == p + arg + q
  {
    var s := p + Placeholder + q;
    if p == [] {
      assert s == Placeholder + q;
      assert s[0] == '{' && s[1] == '0' && s[2] == '}';
      assert s[3..] == q;
      FormatPlain(q, arg);
    } else {
      assert s[0] == p[0] && s[0] != '{';
      assert s[1..] == p[1..] + Placeholder + q;
      FormatOne(p[1..], q, arg);
    }
  }

  /** Formatted, the message for any odd number names the member: "The <name> must be an even number." */
  lemma FormattedOddMessage(n: Int32, name: string)
    requires n as int % 2 != 0
    ensures EvenNumberAttribute(None).IsValidFormatted(Int32Value(n), name) == Failure("The " + name + EvenTail)
  {
    MessageParts();
    FormatOne("The ", EvenTail, name);
  }

  /** Formatted, the message for any value that is not an `int` names the member: "The <name> must be a valid integer." */
  lemma FormattedNonIntegerMessage(value: Value, name: string)
    requires !value.Int32Value?
    ensures EvenNumberAttribute(None).IsValidFormatted(value, name) == Failure("The " + name + IntegerTail)
  {
    MessageParts();
    FormatOne("The ", IntegerTail, name);
  }
}
