/**
 * The library's error values: a base error whose message carries a
 * `[Pineapple UI]` or `[Pineapple UI - <component>]` prefix, and the two
 * specialised errors that fix the code, the name and the message body.
 *
 * The errors are never changed after construction, so they are values: the
 * base constructor builds the record and each specialised constructor is the
 * base one with its own name written over `PineappleUIError`.
 */
module Errors {
  import opened Text
  import opened Js

  datatype UIError = UIError(message: string, code: string, component: Option<string>, name: string)

  /** `[Pineapple UI - C]` when the component is truthy, `[Pineapple UI]` otherwise. */
  function Prefix(component: Option<string>): string {
    if Truthy(component) then "[Pineapple UI - " + component.value + "]" else "[Pineapple UI]"
  }

  /** `new PineappleUIError(message, code, component)`. */
  function NewPineappleUIError(message: string, code: string, component: Option<string>): (e: UIError)
    ensures e.code == code && e.component == component && e.name == "PineappleUIError"
  {
    UIError(Prefix(component) + " " + message, code, component, "PineappleUIError")
  }

  /** The body of an error's message: what follows its prefix and the space. */
  function Body(e: UIError): string
    requires FromBase(e)
  {
    e.message[|Prefix(e.component)| + 1..]
  }

  /** The message is the prefix its component calls for, a space, then a body. */
  predicate FromBase(e: UIError) {
    var p := Prefix(e.component) + " ";
    |p| <= |e.message| && e.message[..|p|] == p
  }

  /**
   * Every base error carries its prefix, the message given to the
   * constructor can be read back from it, and a truthy component is named.
   */
  lemma BaseMessage(message: string, code: string, component: Option<string>)
    ensures FromBase(NewPineappleUIError(message, code, component))
    ensures Body(NewPineappleUIError(message, code, component)) == message
    ensures Truthy(component) ==> Contains(NewPineappleUIError(message, code, component).message, component.value)
    ensures Truthy(component) ==>
      NewPineappleUIError(message, code, component).message == "[Pineapple UI - " + component.value + "] " + message
    ensures !Truthy(component) ==> NewPineappleUIError(message, code, component).message == "[Pineapple UI] " + message
  {
    var e := NewPineappleUIError(message, code, component);
    var p := Prefix(component);
    assert e.message[..|p| + 1] == p + " ";
    assert e.message[|p| + 1..] == message;
    if Truthy(component) {
      assert e.message == "[Pineapple UI - " + component.value + ("] " + message);
      ContainsMiddle("[Pineapple UI - ", component.value, "] " + message);
    }
  }

  /** The body of an `InvalidPropError`, given the `typeof` tag of the received value. */
  function InvalidPropBody(prop: string, expected: string, receivedType: string): string {
    "Invalid prop \"" + prop + "\": expected " + expected + ", received " + receivedType
  }

  /** `new InvalidPropError(component, prop, expected, received)`. */
  function NewInvalidPropError(component: string, prop: string, expected: string, received: Value): (e: UIError)
    ensures e.code == "INVALID_PROP" && e.name == "InvalidPropError" && e.component == Some(component)
  {
    NewPineappleUIError(InvalidPropBody(prop, expected, TypeOf(received)), "INVALID_PROP", Some(component))
      .(name := "InvalidPropError")
  }

  /** `new MissingContextError(component, context)`. */
  function NewMissingContextError(component: string, context: string): (e: UIError)
    ensures e.code == "MISSING_CONTEXT" && e.name == "MissingContextError" && e.component == Some(component)
  {
    NewPineappleUIError(component + " must be used within a " + context + " provider", "MISSING_CONTEXT", Some(component))
      .(name := "MissingContextError")
  }

  /**
   * An `InvalidPropError` is a base error whose body is the prop message
   * with the `typeof` tag of what was received; a non-empty component is
   * named in the message.
   */
  lemma InvalidPropMessage(component: string, prop: string, expected: string, received: Value)
    ensures var e := NewInvalidPropError(component, prop, expected, received);
      FromBase(e) && Body(e) == InvalidPropBody(prop, expected, TypeOf(received))
      && (component != "" ==> Contains(e.message, component))
  {
    BaseMessage(InvalidPropBody(prop, expected, TypeOf(received)), "INVALID_PROP", Some(component));
  }

  /** The prop message names the prop, what was expected and the received type. */
  lemma InvalidPropBodyNames(prop: string, expected: string, receivedType: string)
    ensures Contains(InvalidPropBody(prop, expected, receivedType), prop)
    ensures Contains(InvalidPropBody(prop, expected, receivedType), expected)
    ensures Contains(InvalidPropBody(prop, expected, receivedType), receivedType)
  {
    var body := InvalidPropBody(prop, expected, receivedType);
    var a := "Invalid prop \"";
    var b := "\": expected ";
    var c := ", received ";
    assert body == a + prop + (b + expected + c + receivedType);
    ContainsMiddle(a, prop, b + expected + c + receivedType);
    assert body == (a + prop + b) + expected + (c + receivedType);
    ContainsMiddle(a + prop + b, expected, c + receivedType);
    assert body == (a + prop + b + expected + c) + receivedType + "";
    ContainsMiddle(a + prop + b + expected + c, receivedType, "");
  }

  /**
   * A `MissingContextError` is a base error whose body names the component
   * and the provider it needs; a non-empty component is named in the message.
   */
  lemma MissingContextMessage(component: string, context: string)
    ensures var e := NewMissingContextError(component, context);
      FromBase(e) && Body(e) == component + " must be used within a " + context + " provider"
      && (component != "" ==> Contains(e.message, component))
    ensures Contains(Body(NewMissingContextError(component, context)), context)
  {
    var body := component + " must be used within a " + context + " provider";
    BaseMessage(body, "MISSING_CONTEXT", Some(component));
    assert body == (component + " must be used within a ") + context + " provider";
    ContainsMiddle(component + " must be used within a ", context, " provider");
  }
}
