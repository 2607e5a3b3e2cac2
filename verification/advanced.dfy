/** The advanced-search panel: the search page's `toggleAdvancedSearch` and
    `clearAdvancedSearch`, and the home page's `toggleAdvancedSearch`. */
module AdvancedSearch {
  import opened Maybe
  import opened Strings

  // ---------------------------------------------------------------------
  // Search page toggle

  /** The form's inline `style.display` and the caret's text. */
  datatype Panel = Panel(display: string, caret: string)

  const CaretUp: string := "▲"
  const CaretDown: string := "▼"

  /** The toggle treats an unset display ("") as hidden. */
  predicate IsHidden(p: Panel)
  {
    p.display == "none" || p.display == ""
  }

  /** `toggleAdvancedSearch()`: a hidden form is shown with `block` and an up
      caret, anything else is hidden with `none` and a down caret. */
  function TogglePanel(p: Panel): (q: Panel)
    ensures IsHidden(q) <==> !IsHidden(p)
    ensures q.display == "block" || q.display == "none"
    ensures q.caret == (if IsHidden(q) then CaretDown else CaretUp)
  {
    if p.display == "none" || p.display == "" then Panel("block", CaretUp)
    else Panel("none", CaretDown)
  }

  /** Two toggles from `block` or `none` come back to the same display, and
      to the same panel when its caret already matched. */
  lemma ToggleTwice(p: Panel)
    requires p.display == "block" || p.display == "none"
    ensures TogglePanel(TogglePanel(p)).display == p.display
    ensures p.caret == (if IsHidden(p) then CaretDown else CaretUp) ==> TogglePanel(TogglePanel(p)) == p
  {
  }

  /** An unset display does not come back: two toggles leave it `none`. */
  lemma UnsetDisplayBecomesNone(caret: string)
    ensures TogglePanel(TogglePanel(Panel("", caret))) == Panel("none", CaretDown)
  {
  }

  // ---------------------------------------------------------------------
  // Home page toggle

  const OpenClass: string := "advanced-open"
  const OpenLabel: string := "Đóng tìm kiếm nâng cao"
  const ClosedLabel: string := "Tìm kiếm nâng cao"

  /** What the home toggle reads and writes: whether `#advToggle` and
      `#advancedPanel` exist, the body's class list, the panel's
      `aria-hidden` and the toggle's text. */
  datatype HomePage = HomePage(hasToggle: bool, hasPanel: bool, bodyClasses: set<string>,
                               ariaHidden: string, toggleText: string)

  /** The home page's `toggleAdvancedSearch()`: toggle the body class and set
      `aria-hidden` and the label from the new state. */
  function ToggleHome(p: HomePage): (q: HomePage)
    ensures !(p.hasToggle && p.hasPanel) ==> q == p
    ensures p.hasToggle && p.hasPanel ==>
              && (OpenClass in q.bodyClasses <==> OpenClass !in p.bodyClasses)
              && q.bodyClasses - {OpenClass} == p.bodyClasses - {OpenClass}
              && q.ariaHidden == (if OpenClass in q.bodyClasses then "false" else "true")
              && q.toggleText == (if OpenClass in q.bodyClasses then OpenLabel else ClosedLabel)
    ensures q.hasToggle == p.hasToggle && q.hasPanel == p.hasPanel
  {
    if p.hasToggle && p.hasPanel then
      var open := OpenClass !in p.bodyClasses;
      p.(bodyClasses := if open then p.bodyClasses + {OpenClass} else p.bodyClasses - {OpenClass},
         ariaHidden := if open then "false" else "true",
         toggleText := if open then OpenLabel else ClosedLabel)
    else p
  }

  /** Two home toggles restore the body's classes. */
  lemma ToggleHomeTwice(p: HomePage)
    ensures ToggleHome(ToggleHome(p)).bodyClasses == p.bodyClasses
  {
  }

  // ---------------------------------------------------------------------
  // clearAdvancedSearch

  /** An `<input>` of the form: its `type` attribute, `value` and `checked`. */
  datatype Input = Input(typeAttr: Option<string>, value: string, checked: bool)

  /** Matches `input[type="checkbox"]`; HTML compares `type` values
      ASCII case-insensitively. */
  predicate IsCheckbox(i: Input)
  {
    i.typeAttr.Some? && LowerAscii(i.typeAttr.value) == "checkbox"
  }

  /** Matches `input[type="text"]`. */
  predicate IsTextInput(i: Input)
  {
    i.typeAttr.Some? && LowerAscii(i.typeAttr.value) == "text"
  }

  /** The `forEach` body for one input, applied only to matched inputs:
      `input.type === 'checkbox'` unchecks, anything else is emptied. */
  function ClearInput(i: Input): (r: Input)
    ensures IsCheckbox(i) ==> r == i.(checked := false)
    ensures IsTextInput(i) ==> r == i.(value := "")
    ensures !IsCheckbox(i) && !IsTextInput(i) ==> r == i
    ensures !r.checked || r.value == "" || r == i
  {
    if !(IsTextInput(i) || IsCheckbox(i)) then i
    else if LowerAscii(i.typeAttr.value) == "checkbox" then i.(checked := false)
    else i.(value := "")
  }

  /** Clearing an input twice is clearing it once. */
  lemma ClearInputIdempotent(i: Input)
    ensures ClearInput(ClearInput(i)) == ClearInput(i)
  {
  }

  /** `clearAdvancedSearch()` over the form's inputs in document order. */
  method ClearAdvancedSearch(inputs: seq<Input>) returns (out: seq<Input>)
    ensures |out| == |inputs|
    ensures forall j :: 0 <= j < |inputs| && IsCheckbox(inputs[j]) ==>
              !out[j].checked && out[j].value == inputs[j].value && out[j].typeAttr == inputs[j].typeAttr
    ensures forall j :: 0 <= j < |inputs| && IsTextInput(inputs[j]) ==>
              out[j].value == "" && out[j].checked == inputs[j].checked && out[j].typeAttr == inputs[j].typeAttr
    ensures forall j :: 0 <= j < |inputs| && !IsCheckbox(inputs[j]) && !IsTextInput(inputs[j]) ==>
              out[j] == inputs[j]
    ensures forall j :: 0 <= j < |out| ==> ClearInput(out[j]) == out[j]
  {
    out := [];
    var k := 0;
    while k < |inputs|
      invariant 0 <= k <= |inputs|
      invariant |out| == k
      invariant forall j :: 0 <= j < k ==> out[j] == ClearInput(inputs[j])
    {
      out := out + [ClearInput(inputs[k])];
      k := k + 1;
    }
    forall j | 0 <= j < |out|
      ensures ClearInput(out[j]) == out[j]
    {
      ClearInputIdempotent(inputs[j]);
    }
  }
}
