/**
 * `FormField`: wraps one form control with a label, an error message and a
 * helper text, and links them to the control through ids and
 * `aria-describedby`. The id React generates is a parameter.
 */
module FormField {
  import opened Text
  import opened Js
  import opened Errors

  datatype FieldProps = FieldProps(
    id: Option<string>,
    labelText: Option<string>,
    error: Option<string>,
    helperText: Option<string>,
    required: Option<bool>)

  /** The `children` prop: a React element, or some other value. */
  datatype Child = Element | NotElement(value: Js.Value)

  /** The props merged into the cloned control. */
  datatype Injected = Injected(
    id: string,
    describedBy: Option<string>,
    ariaInvalid: Option<bool>,
    required: Option<bool>,
    error: bool)

  /** The `<label>`, with `marker` for the `*` that marks a required field. */
  datatype Label = Label(htmlFor: string, text: string, marker: bool)

  /** A `<p>` below the control. */
  datatype Paragraph = Paragraph(id: string, role: Option<string>, text: string)

  datatype Field = Field(
    caption: Option<Label>,
    control: Injected,
    errorMessage: Option<Paragraph>,
    helper: Option<Paragraph>)

  /** What rendering gives: the field, or the error it throws. */
  datatype Rendered = Rendered(field: Field) | Thrown(error: UIError)

  /** `providedId ?? generatedId`: a given id is kept even when empty. */
  function FieldId(p: FieldProps, generatedId: string): string {
    if p.id.Some? then p.id.value else generatedId
  }

  function ErrorId(id: string): string {
    id + "-error"
  }

  function HelperId(id: string): string {
    id + "-helper"
  }

  /** `.filter(Boolean)` on a list of optional strings. */
  function Present(xs: seq<Option<string>>): (r: seq<string>)
    ensures forall i :: 0 <= i < |r| ==> r[i] != ""
  {
    if xs == [] then []
    else (if Truthy(xs[0]) then [xs[0].value] else []) + Present(xs[1..])
  }

  /** The filter keeps exactly the non-empty strings present in the list. */
  lemma {:induction false} PresentKeeps(xs: seq<Option<string>>)
    ensures forall s :: s in Present(xs) <==> Some(s) in xs && s != ""
  {
    if xs != [] {
      PresentKeeps(xs[1..]);
      assert xs == [xs[0]] + xs[1..];
    }
  }

  /**
   * The filter keeps order: filtering a concatenation filters each part
   * and joins the results in the same order.
   */
  lemma {:induction false} PresentConcat(xs: seq<Option<string>>, ys: seq<Option<string>>)
    ensures Present(xs + ys) == Present(xs) + Present(ys)
    ensures |Present(xs)| <= |xs|
  {
    if xs == [] {
      assert xs + ys == ys;
    } else {
      PresentConcat(xs[1..], ys);
      assert (xs + ys)[1..] == xs[1..] + ys;
    }
  }

  /** `[error ? errorId : null, helperText ? helperId : null].filter(Boolean).join(' ') || undefined`. */
  function DescribedBy(p: FieldProps, id: string): Option<string> {
    var ids := Present([if Truthy(p.error) then Some(ErrorId(id)) else None,
                        if Truthy(p.helperText) then Some(HelperId(id)) else None]);
    var joined := Join(ids, " ");
    if joined == "" then None else Some(joined)
  }

  /** The `typeof` tag `FormField` reports for children that are not elements. */
  function ChildValue(c: Child): Js.Value {
    if c.Element? then Js.Object else c.value
  }

  /** `FormField` rendered with `generatedId` as the id `React.useId` gives. */
  function FormField(p: FieldProps, generatedId: string, child: Child): Rendered {
    var id := FieldId(p, generatedId);
    if !child.Element? then
      Thrown(NewInvalidPropError("FormField", "children", "valid React element", ChildValue(child)))
    else
      Rendered(Field(
        if Truthy(p.labelText) then Some(Label(id, p.labelText.value, IsTrue(p.required))) else None,
        Injected(id, DescribedBy(p, id), if Truthy(p.error) then Some(true) else None, p.required, Truthy(p.error)),
        if Truthy(p.error) then Some(Paragraph(ErrorId(id), Some("alert"), p.error.value)) else None,
        if Truthy(p.helperText) && !Truthy(p.error) then Some(Paragraph(HelperId(id), None, p.helperText.value)) else None))
  }

  /**
   * `aria-describedby` lists the error id when there is an error and the
   * helper id when there is helper text, error first, and is absent when
   * neither is set.
   */
  lemma DescribedByCases(p: FieldProps, id: string)
    ensures DescribedBy(p, id) ==
      if Truthy(p.error) && Truthy(p.helperText) then Some(ErrorId(id) + " " + HelperId(id))
      else if Truthy(p.error) then Some(ErrorId(id))
      else if Truthy(p.helperText) then Some(HelperId(id))
      else None
  {
    var e := if Truthy(p.error) then Some(ErrorId(id)) else None;
    var h := if Truthy(p.helperText) then Some(HelperId(id)) else None;
    assert [e, h][1..] == [h];
    var none: seq<Option<string>> := [];
    assert [h][1..] == none;
    var tail: seq<string> := if Truthy(h) then [h.value] else [];
    assert Present([h]) == tail + Present(none);
    var ids := Present([e, h]);
    assert ids == (if Truthy(e) then [e.value] else []) + tail;
    assert |ErrorId(id)| > 0 && |HelperId(id)| > 0;
    if Truthy(p.error) && Truthy(p.helperText) {
      assert ids == [ErrorId(id), HelperId(id)];
      assert ids[1..] == [HelperId(id)];
      assert Join(ids, " ") == ErrorId(id) + " " + HelperId(id);
    } else if Truthy(p.error) {
      assert ids == [ErrorId(id)];
    } else if Truthy(p.helperText) {
      assert ids == [HelperId(id)];
    } else {
      assert ids == [];
    }
  }

  /** The error and helper ids of one field differ, and each determines the field id. */
  lemma IdsDistinct(id: string, other: string)
    ensures ErrorId(id) != HelperId(id)
    ensures ErrorId(id) == ErrorId(other) ==> id == other
    ensures HelperId(id) == HelperId(other) ==> id == other
  {
    assert ErrorId(id)[|id| + 1] == 'e' && HelperId(id)[|id| + 1] == 'h';
    if ErrorId(id) == ErrorId(other) {
      assert id == ErrorId(id)[..|ErrorId(id)| - 6] && other == ErrorId(other)[..|ErrorId(other)| - 6];
    }
    if HelperId(id) == HelperId(other) {
      assert id == HelperId(id)[..|HelperId(id)| - 7] && other == HelperId(other)[..|HelperId(other)| - 7];
    }
  }

  /**
   * A child that is not an element makes `FormField` throw an
   * `InvalidPropError` for `children` that names `FormField`; an element is
   * always rendered.
   */
  lemma RejectsNonElements(p: FieldProps, generatedId: string, child: Child)
    ensures FormField(p, generatedId, child).Thrown? <==> !child.Element?
    ensures !child.Element? ==> var e := FormField(p, generatedId, child).error;
      e.name == "InvalidPropError" && e.code == "INVALID_PROP" && e.component == Some("FormField")
      && Contains(e.message, "FormField")
      && Body(e) == InvalidPropBody("children", "valid React element", TypeOf(child.value))
  {
    if !child.Element? {
      InvalidPropMessage("FormField", "children", "valid React element", child.value);
    }
  }

  /**
   * The control gets the field id, which the label points at; `aria-invalid`
   * is `true` exactly when there is an error (absent otherwise), `error` is
   * whether there is one, and `required` passes through.
   */
  lemma InjectedProps(p: FieldProps, generatedId: string)
    ensures var f := FormField(p, generatedId, Element).field; var id := FieldId(p, generatedId);
      f.control.id == id
      && (f.caption.Some? ==> f.caption.value.htmlFor == id)
      && (p.id.Some? ==> id == p.id.value) && (p.id.None? ==> id == generatedId)
      && (f.control.ariaInvalid.Some? <==> Truthy(p.error))
      && (f.control.ariaInvalid.Some? ==> f.control.ariaInvalid.value)
      && f.control.error == Truthy(p.error)
      && f.control.required == p.required
  {
  }

  /**
   * The error paragraph (role `alert`, the error id) renders exactly when
   * there is an error; the helper paragraph (the helper id) exactly when
   * there is helper text and no error; the label exactly when there is a
   * label, marked `*` exactly when the field is also required.
   */
  lemma RenderedParts(p: FieldProps, generatedId: string)
    ensures var f := FormField(p, generatedId, Element).field; var id := FieldId(p, generatedId);
      (f.errorMessage.Some? <==> Truthy(p.error))
      && (f.errorMessage.Some? ==> f.errorMessage.value == Paragraph(ErrorId(id), Some("alert"), p.error.value))
      && (f.helper.Some? <==> Truthy(p.helperText) && !Truthy(p.error))
      && (f.helper.Some? ==> f.helper.value.id == HelperId(id) && f.helper.value.role.None?)
      && (f.caption.Some? <==> Truthy(p.labelText))
      && (f.caption.Some? ==> (f.caption.value.marker <==> IsTrue(p.required)))
  {
  }

  /**
   * Every paragraph that renders is named by `aria-describedby`; but with
   * both an error and helper text, the helper id is still listed although
   * no element carries it.
   */
  lemma DescribedByTargets(p: FieldProps, generatedId: string)
    ensures var f := FormField(p, generatedId, Element).field; var id := FieldId(p, generatedId);
      (f.errorMessage.Some? ==>
         (f.control.describedBy.Some? && |ErrorId(id)| <= |f.control.describedBy.value|
          && f.control.describedBy.value[..|ErrorId(id)|] == ErrorId(id)))
      && (f.helper.Some? ==> f.control.describedBy == Some(HelperId(id)))
      && (Truthy(p.error) && Truthy(p.helperText) ==>
            f.helper.None? && f.control.describedBy == Some(ErrorId(id) + " " + HelperId(id)))
  {
    var id := FieldId(p, generatedId);
    DescribedByCases(p, id);
    if Truthy(p.error) && Truthy(p.helperText) {
      assert (ErrorId(id) + " " + HelperId(id))[..|ErrorId(id)|] == ErrorId(id);
    }
  }
}
