/**
  The transport-cost form: its validation of the typed cost (a number, not
  negative, rounded to hundredths), the trimming of the optional
  description, and the form fields that opening, editing, saving and
  closing set.

  The cost text reaches the decision already parsed: `None` stands for the
  `NaN` that `parseFloat` gives on text that does not start with a number.
*/
module TransportCostModal {
  import opened Optional
  import opened Types

  const NotANumberMessage: string := "Por favor ingresa un valor numérico válido"
  const NegativeMessage: string := "El costo no puede ser negativo"

  /** The characters `String.prototype.trim` removes: white space and line terminators. */
  predicate IsSpace(c: char) {
    || c == '\t' || c == '\n' || c == '\U{B}' || c == '\U{C}' || c == '\r' || c == ' '
    || c == '\U{A0}' || c == '\U{1680}' || ('\U{2000}' <= c <= '\U{200A}')
    || c == '\U{2028}' || c == '\U{2029}' || c == '\U{202F}' || c == '\U{205F}'
    || c == '\U{3000}' || c == '\U{FEFF}'
  }

  /** The text without its leading white space. */
  function TrimStart(s: string): (r: string)
    ensures |r| <= |s| && r == s[|s| - |r|..]
    ensures r == [] || !IsSpace(r[0])
    ensures forall i :: 0 <= i < |s| - |r| ==> IsSpace(s[i])
  {
    if s != [] && IsSpace(s[0]) then TrimStart(s[1..]) else s
  }

  /** The text without its trailing white space. */
  function TrimEnd(s: string): (r: string)
    ensures |r| <= |s| && r == s[..|r|]
    ensures r == [] || !IsSpace(r[|r| - 1])
    ensures forall i :: |r| <= i < |s| ==> IsSpace(s[i])
  {
    if s != [] && IsSpace(s[|s| - 1]) then TrimEnd(s[..|s| - 1]) else s
  }

  /** How much white space `s` starts with. */
  function LeadingSpace(s: string): (n: nat)
    ensures n <= |s|
  {
    |s| - |TrimStart(s)|
  }

  /**
    `trim()`: the middle of the text between its leading and trailing white
    space; it neither starts nor ends with white space.
  */
  function Trim(s: string): (r: string)
    ensures LeadingSpace(s) + |r| <= |s| && r == s[LeadingSpace(s)..LeadingSpace(s) + |r|]
    ensures forall i :: 0 <= i < LeadingSpace(s) ==> IsSpace(s[i])
    ensures forall i :: LeadingSpace(s) + |r| <= i < |s| ==> IsSpace(s[i])
    ensures r == [] || (!IsSpace(r[0]) && !IsSpace(r[|r| - 1]))
  {
    var t := TrimStart(s);
    var r := TrimEnd(t);
    assert r != [] ==> r[0] == t[0];
    r
  }

  /** Trimming trimmed text changes nothing. */
  lemma TrimIdempotent(s: string)
    ensures Trim(Trim(s)) == Trim(s)
  {
    var r := Trim(s);
    assert r == [] || !IsSpace(r[0]);
    assert TrimStart(r) == r;
    assert r == [] || !IsSpace(r[|r| - 1]);
  }

  /** Trimming leaves nothing exactly when the text is all white space. */
  lemma TrimEmptyIffBlank(s: string)
    ensures Trim(s) == [] <==> forall i :: 0 <= i < |s| ==> IsSpace(s[i])
  {
  }

  /** `description.trim() || undefined`: blank descriptions are absent. */
  function TrimmedDescription(description: string): (r: Option<string>)
    ensures r.None? <==> forall i :: 0 <= i < |description| ==> IsSpace(description[i])
    ensures r.Some? ==> r.value == Trim(description) && r.value != []
  {
    TrimEmptyIffBlank(description);
    var t := Trim(description);
    if t == [] then None else Some(t)
  }

  /**
    `Math.round(x * 100) / 100`: the nearest hundredth, halves rounding up.
    The result is a whole number of hundredths within half a hundredth of `x`.
  */
  function RoundToCents(x: real): (r: real)
    ensures HasCents(r)
    ensures x - 0.005 < r <= x + 0.005
    ensures x >= 0.0 ==> r >= 0.0
  {
    var n := (x * 100.0 + 0.5).Floor;
    var r := n as real / 100.0;
    assert r * 100.0 == n as real;
    r
  }

  /** An amount that already has at most two decimals is kept as it is. */
  lemma RoundingKeepsCents(x: real)
    requires HasCents(x)
    ensures RoundToCents(x) == x
  {
    var n := (x * 100.0).Floor;
    assert (x * 100.0 + 0.5).Floor == n;
  }

  datatype Decision =
    | Reject(message: string)
    | Accept(cost: real, description: Option<string>)

  /**
    `handleSave`'s validation: text that is not a number and negative numbers
    are refused with their message; any other number is accepted, rounded to
    hundredths, with the trimmed description.
  */
  function Decide(parsed: Option<real>, description: string): (d: Decision)
    ensures d.Reject? <==> parsed.None? || parsed.value < 0.0
    ensures parsed.None? ==> d == Reject(NotANumberMessage)
    ensures parsed.Some? && parsed.value < 0.0 ==> d == Reject(NegativeMessage)
    ensures d.Accept? ==> && d.cost >= 0.0 && HasCents(d.cost)
                          && d.cost == RoundToCents(parsed.value)
                          && d.description == TrimmedDescription(description)
  {
    match parsed
    case None => Reject(NotANumberMessage)
    case Some(x) =>
      if x < 0.0 then Reject(NegativeMessage)
      else Accept(RoundToCents(x), TrimmedDescription(description))
  }

  /** The form's fields. */
  class CostForm {
    var cost: string
    var description: string
    var error: string
    var isSubmitting: bool

    constructor()
      ensures cost == "" && description == "" && error == "" && !isSubmitting
    {
      cost, description, error, isSubmitting := "", "", "", false;
    }

    /**
      The effect run when the modal's `isOpen` or `existingTransport` changes:
      an open modal with an existing trip shows its cost (as `shownCost`, the
      number's text) and description, keeping any error; an open modal without
      one is cleared; a closed modal keeps its fields.
    */
    method OnOpen(isOpen: bool, existing: Option<TransportLog>, shownCost: string)
      modifies this
      ensures isOpen && existing.Some? ==>
        cost == shownCost && description == existing.value.description.GetOr("") && error == old(error)
      ensures isOpen && existing.None? ==> cost == "" && description == "" && error == ""
      ensures !isOpen ==> cost == old(cost) && description == old(description) && error == old(error)
      ensures isSubmitting == old(isSubmitting)
    {
      if isOpen && existing.Some? {
        cost := shownCost;
        description := existing.value.description.GetOr("");
      } else if isOpen {
        cost, description, error := "", "", "";
      }
    }

    /**
      `handleSave`, given `parseFloat(cost)`: a refusal sets its message and
      keeps the fields; an acceptance hands the rounded cost and trimmed
      description to `onSave` (returned here) and clears the form.
    */
    method Save(parsed: Option<real>) returns (saved: Decision)
      modifies this
      ensures saved == Decide(parsed, old(description))
      ensures saved.Reject? ==>
        error == saved.message && cost == old(cost) && description == old(description) && isSubmitting == old(isSubmitting)
      ensures saved.Accept? ==> cost == "" && description == "" && error == "" && !isSubmitting
    {
      saved := Decide(parsed, description);
      if saved.Reject? {
        error := saved.message;
        return;
      }
      // the awaited save runs as one step, so the submitting window closes at once
      isSubmitting := false;
      cost, description, error := "", "", "";
    }

    /** `handleCostChange`: the new text, and no error. */
    method CostChange(value: string)
      modifies this
      ensures cost == value && error == ""
      ensures description == old(description) && isSubmitting == old(isSubmitting)
    {
      cost := value;
      error := "";
    }

    /** The description field's `onChange`. */
    method DescriptionChange(value: string)
      modifies this
      ensures description == value
      ensures cost == old(cost) && error == old(error) && isSubmitting == old(isSubmitting)
    {
      description := value;
    }

    /** `handleClose`: every field cleared before `onClose`. */
    method Close()
      modifies this
      ensures cost == "" && description == "" && error == ""
      ensures isSubmitting == old(isSubmitting)
    {
      cost, description, error := "", "", "";
    }
  }
}
