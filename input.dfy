/**
 * `Input`: the attributes the text input gets from its `error`, `disabled`
 * and `required` props. The style variant is kept as the name handed to the
 * style table; the classes it stands for are not modelled.
 */
module Input {
  import opened Text
  import opened Js

  datatype InputProps = InputProps(
    variant: Option<string>,
    error: Option<bool>,
    disabled: Option<bool>,
    required: Option<bool>)

  /**
   * The attributes of the `<input>`. `required` itself is taken out of the
   * props and never forwarded, so only `aria-required` carries it.
   */
  datatype InputAttrs = InputAttrs(
    variant: Option<string>,
    disabled: Option<bool>,
    ariaRequired: Option<bool>,
    ariaInvalid: Option<bool>)

  /** `flag || undefined` for an optional boolean: `true`, or absent. */
  function TrueOrAbsent(flag: Option<bool>): (r: Option<bool>)
    ensures r.Some? <==> IsTrue(flag)
    ensures r.Some? ==> r.value
  {
    if IsTrue(flag) then Some(true) else None
  }

  /**
   * An error forces the `error` variant, otherwise the given variant is
   * used; `disabled` passes through; `aria-required` and `aria-invalid` are
   * `true` exactly when `required` and `error` are, and absent otherwise.
   */
  function Input(p: InputProps): (a: InputAttrs)
    ensures IsTrue(p.error) ==> a.variant == Some("error")
    ensures !IsTrue(p.error) ==> a.variant == p.variant
    ensures a.disabled == p.disabled
    ensures a.ariaRequired == Some(true) <==> IsTrue(p.required)
    ensures a.ariaRequired.None? <==> !IsTrue(p.required)
    ensures a.ariaInvalid == Some(true) <==> IsTrue(p.error)
    ensures a.ariaInvalid.None? <==> !IsTrue(p.error)
  {
    InputAttrs(if IsTrue(p.error) then Some("error") else p.variant,
               p.disabled,
               TrueOrAbsent(p.required),
               TrueOrAbsent(p.error))
  }
}
