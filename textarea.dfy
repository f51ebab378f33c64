/**
 * `Textarea`: the same error override and ARIA flags as `Input`, written
 * out again in its own component.
 */
module Textarea {
  import opened Text
  import opened Js
  import Input

  datatype TextareaProps = TextareaProps(
    variant: Option<string>,
    error: Option<bool>,
    disabled: Option<bool>,
    required: Option<bool>)

  /** The attributes of the `<textarea>`; as in `Input`, `required` is not forwarded. */
  datatype TextareaAttrs = TextareaAttrs(
    variant: Option<string>,
    disabled: Option<bool>,
    ariaRequired: Option<bool>,
    ariaInvalid: Option<bool>)

  function Textarea(p: TextareaProps): (a: TextareaAttrs)
    ensures IsTrue(p.error) ==> a.variant == Some("error")
    ensures !IsTrue(p.error) ==> a.variant == p.variant
    ensures a.disabled == p.disabled
    ensures a.ariaRequired.Some? <==> IsTrue(p.required)
    ensures a.ariaInvalid.Some? <==> IsTrue(p.error)
  {
    TextareaAttrs(if IsTrue(p.error) then Some("error") else p.variant,
                  p.disabled,
                  if IsTrue(p.required) then Some(true) else None,
                  if IsTrue(p.error) then Some(true) else None)
  }

  /** A textarea and an input given the same props get the same attributes. */
  lemma AgreesWithInput(variant: Option<string>, error: Option<bool>, disabled: Option<bool>, required: Option<bool>)
    ensures var t := Textarea(TextareaProps(variant, error, disabled, required));
      var i := Input.Input(Input.InputProps(variant, error, disabled, required));
      t.variant == i.variant && t.disabled == i.disabled
      && t.ariaRequired == i.ariaRequired && t.ariaInvalid == i.ariaInvalid
  {
  }
}
