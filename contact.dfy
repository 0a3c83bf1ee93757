/**
 * The contact form: per-field messages chosen from the browser's validity
 * flags, the error slots they are written to, the status line and the submit
 * handler.  The browser's constraint validation itself is not modelled; its
 * flags are inputs.
 */
module ContactForm {
  import opened Wrappers

  /** The browser's validity flags for one field, as the handler reads them. */
  datatype Validity = Validity(valid: bool, valueMissing: bool, typeMismatch: bool, tooShort: bool)

  /** An input or textarea of the form: its id and its `minlength` attribute, if any. */
  datatype Field = Field(id: string, minLength: Option<string>)

  const Required := "This field is required."
  const BadEmail := "Please enter a valid email address."
  const Generic := "Please check this field."
  const FixFields := "Please fix the highlighted fields and try again."
  const DemoSent := "Message sent (demo). Add backend/email service to make it real."

  /** The ids whose error slots `clearErrors` empties. */
  const ClearedIds := ["name", "email", "message"]

  /** A template literal renders a missing attribute (null) as "null". */
  function AttrText(a: Option<string>): (s: string)
    ensures a.Some? ==> s == a.value
    ensures a.None? ==> s == "null"
  {
    if a.Some? then a.value else "null"
  }

  /** The too-short message, carrying the field's `minlength` as written. */
  function TooShortMessage(minLength: Option<string>): (msg: string)
    ensures |msg| >= 34 && msg[..22] == "Please enter at least "
    ensures msg[22..|msg| - 12] == AttrText(minLength) && msg[|msg| - 12..] == " characters."
  {
    "Please enter at least " + AttrText(minLength) + " characters."
  }

  /**
   * The message `validateField` writes for a field with flags `v`: empty when
   * valid, otherwise one message chosen by precedence: missing value, type
   * mismatch, too short, anything else.
   */
  function ErrorMessage(v: Validity, minLength: Option<string>): (msg: string)
    ensures msg == "" <==> v.valid
    ensures !v.valid && v.valueMissing ==> msg == Required
    ensures !v.valid && !v.valueMissing && v.typeMismatch ==> msg == BadEmail
    ensures !v.valid && !v.valueMissing && !v.typeMismatch && v.tooShort ==> msg == TooShortMessage(minLength)
    ensures !v.valid && !v.valueMissing && !v.typeMismatch && !v.tooShort ==> msg == Generic
  {
    if v.valid then ""
    else if v.valueMissing then Required
    else if v.typeMismatch then BadEmail
    else if v.tooShort then TooShortMessage(minLength)
    else Generic
  }

  /**
   * The four messages are pairwise distinct, so the text a user sees names
   * exactly the flag that won the precedence.
   */
  lemma MessageIdentifiesCause(v: Validity, minLength: Option<string>)
    requires !v.valid
    ensures ErrorMessage(v, minLength) == Required <==> v.valueMissing
    ensures ErrorMessage(v, minLength) == BadEmail <==> !v.valueMissing && v.typeMismatch
    ensures ErrorMessage(v, minLength) == TooShortMessage(minLength) <==>
      !v.valueMissing && !v.typeMismatch && v.tooShort
    ensures ErrorMessage(v, minLength) == Generic <==>
      !v.valueMissing && !v.typeMismatch && !v.tooShort
  {
    var short := TooShortMessage(minLength);
    assert short[0] == 'P' && Required[0] == 'T' && short != Required;
    assert short[14] == 't' && BadEmail[14] == ' ' && short != BadEmail;
    assert short[7] == 'e' && Generic[7] == 'c' && short != Generic;
    assert Required[0] != BadEmail[0] && Required[0] != Generic[0];
    assert BadEmail[7] != Generic[7];
  }

  /** `setError`: write `msg` into the error slot for `id`, when the page has one. */
  function WriteSlot(slots: map<string, string>, id: string, msg: string): (r: map<string, string>)
    ensures r.Keys == slots.Keys
    ensures id in slots ==> r[id] == msg
    ensures forall other :: other in slots && other != id ==> r[other] == slots[other]
  {
    if id in slots then slots[id := msg] else slots
  }

  /** `clearErrors`: empty the slots of the name, email and message fields. */
  function ClearSlots(slots: map<string, string>): (r: map<string, string>)
    ensures r.Keys == slots.Keys
    ensures forall id :: id in r && id in ClearedIds ==> r[id] == ""
    ensures forall id :: id in r && id !in ClearedIds ==> r[id] == slots[id]
  {
    WriteSlot(WriteSlot(WriteSlot(slots, "name", ""), "email", ""), "message", "")
  }

  /** The slots after validating the fields one after the other, first to last. */
  function ShowMessages(slots: map<string, string>, fields: seq<Field>, flags: seq<Validity>): (r: map<string, string>)
    requires |fields| == |flags|
    ensures r.Keys == slots.Keys
  {
    if fields == [] then slots
    else
      var n := |fields| - 1;
      WriteSlot(ShowMessages(slots, fields[..n], flags[..n]), fields[n].id, ErrorMessage(flags[n], fields[n].minLength))
  }

  /** The fields have pairwise distinct ids. */
  predicate DistinctIds(fields: seq<Field>) {
    forall i, j :: 0 <= i < j < |fields| ==> fields[i].id != fields[j].id
  }

  /**
   * After every field is validated, each field's slot shows exactly that
   * field's message (empty when valid), whatever the other fields' flags.
   */
  lemma {:induction false} ShowMessagesAt(slots: map<string, string>, fields: seq<Field>, flags: seq<Validity>, k: nat)
    requires |fields| == |flags| && DistinctIds(fields)
    requires k < |fields| && fields[k].id in slots
    ensures ShowMessages(slots, fields, flags)[fields[k].id] == ErrorMessage(flags[k], fields[k].minLength)
  {
    var n := |fields| - 1;
    if k < n {
      ShowMessagesAt(slots, fields[..n], flags[..n], k);
    }
  }

  /** A slot that belongs to no field keeps its text. */
  lemma {:induction false} ShowMessagesElsewhere(slots: map<string, string>, fields: seq<Field>, flags: seq<Validity>, id: string)
    requires |fields| == |flags| && id in slots
    requires forall i :: 0 <= i < |fields| ==> fields[i].id != id
    ensures ShowMessages(slots, fields, flags)[id] == slots[id]
  {
    if fields != [] {
      var n := |fields| - 1;
      ShowMessagesElsewhere(slots, fields[..n], flags[..n], id);
    }
  }

  /** Every field valid. */
  predicate AllValid(flags: seq<Validity>) {
    forall i :: 0 <= i < |flags| ==> flags[i].valid
  }

  /** What `form.reset()` does to the values: every field becomes empty. */
  function Blank(n: nat): (values: seq<string>)
    ensures |values| == n && forall i :: 0 <= i < n ==> values[i] == ""
  {
    seq(n, _ => "")
  }

  class Form {
    const fields: seq<Field>
    var values: seq<string>         // each field's value, in order
    var slots: map<string, string>  // the text of each error slot, by the field id it is for
    var status: string              // #formStatus's text

    constructor (fields0: seq<Field>, values0: seq<string>, slots0: map<string, string>)
      ensures fields == fields0 && values == values0 && slots == slots0 && status == ""
    {
      fields, values, slots, status := fields0, values0, slots0, "";
    }

    /** `validateField` for field `k` with flags `v`; also the input and blur handlers. */
    method ValidateField(k: nat, v: Validity) returns (ok: bool)
      requires k < |fields|
      modifies this
      ensures ok == v.valid
      ensures slots == WriteSlot(old(slots), fields[k].id, ErrorMessage(v, fields[k].minLength))
      ensures values == old(values) && status == old(status)
    {
      if v.valid {
        slots := WriteSlot(slots, fields[k].id, "");
        return true;
      }
      if v.valueMissing {
        slots := WriteSlot(slots, fields[k].id, Required);
        return false;
      }
      if v.typeMismatch {
        slots := WriteSlot(slots, fields[k].id, BadEmail);
        return false;
      }
      if v.tooShort {
        slots := WriteSlot(slots, fields[k].id, TooShortMessage(fields[k].minLength));
        return false;
      }
      slots := WriteSlot(slots, fields[k].id, Generic);
      return false;
    }

    /** The submit handler's loop: validate every field in order, with no early exit. */
    method ValidateAll(flags: seq<Validity>) returns (ok: bool)
      requires |flags| == |fields|
      modifies this
      ensures ok == AllValid(flags)
      ensures slots == ShowMessages(old(slots), fields, flags)
      ensures values == old(values) && status == old(status)
    {
      ok := true;
      for i := 0 to |fields|
        invariant ok <==> forall j :: 0 <= j < i ==> flags[j].valid
        invariant slots == ShowMessages(old(slots), fields[..i], flags[..i])
        invariant values == old(values) && status == old(status)
      {
        var fieldOk := ValidateField(i, flags[i]);
        if !fieldOk {
          ok := false;
        }
        assert fields[..i + 1][..i] == fields[..i];
        assert flags[..i + 1][..i] == flags[..i];
      }
      assert fields[..|fields|] == fields && flags[..|flags|] == flags;
    }

    /**
     * The submit handler, given each field's flags at submit time: clear the
     * errors and the status, validate every field, then report failure, or
     * report the demo success and reset the form.
     */
    method Submit(flags: seq<Validity>) returns (ok: bool)
      requires |flags| == |fields|
      modifies this
      ensures ok == AllValid(flags)
      ensures slots == ShowMessages(ClearSlots(old(slots)), fields, flags)
      ensures !ok ==> status == FixFields && values == old(values)
      ensures ok ==> status == DemoSent && values == Blank(|old(values)|)
    {
      slots := ClearSlots(slots);
      status := "";
      ok := ValidateAll(flags);
      if !ok {
        status := FixFields;
        return;
      }
      status := DemoSent;
      values := Blank(|values|);
    }
  }

  /**
   * What a submit shows: with distinct field ids, every field that has a slot
   * shows its own message, so a field with a missing value alone shows
   * "This field is required." and each valid field shows nothing.
   */
  lemma {:induction false} SubmitShowsEachField(slots: map<string, string>, fields: seq<Field>, flags: seq<Validity>, k: nat)
    requires |fields| == |flags| && DistinctIds(fields)
    requires k < |fields| && fields[k].id in slots
    ensures var shown := ShowMessages(ClearSlots(slots), fields, flags)[fields[k].id];
      && (flags[k].valid ==> shown == "")
      && (!flags[k].valid && flags[k].valueMissing ==> shown == Required)
      && (!flags[k].valid ==> shown != "")
  {
    ShowMessagesAt(ClearSlots(slots), fields, flags, k);
  }
}
