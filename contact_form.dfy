/**
 * The contact form of `src/pages/About.js`. Its state `formData` is an
 * object with the keys `name`, `email` and `message`; typing into an input
 * spreads the old object and overrides the key the input is named after,
 * and sending the form stops the browser's own submission, logs the data
 * and puts the three empty fields back.
 */
module ContactForm {
  import opened JsValue

  /** The names of the form's three inputs, in the order of the initial object. */
  const FieldNames := ["name", "email", "message"]

  /** `{ name: '', email: '', message: '' }`. */
  const EmptyForm: Object := [("name", Str("")), ("email", Str("")), ("message", Str(""))]

  /** `formData` before anything is typed. */
  function InitialForm(): (f: Object)
    ensures Keys(f) == FieldNames && DistinctKeys(f)
    ensures forall k :: k in FieldNames ==> Get(f, k) == Str("")
  {
    EmptyForm
  }

  /** `handleChange`: the updater `prev => ({ ...prev, [name]: value })` for the input named `name`. */
  function HandleChange(form: Object, name: string, value: string): Object
  {
    With(form, name, Str(value))
  }

  /** A change sets the input's own key to the typed text and leaves every other key as it was; no key is added when the input's key exists. */
  lemma ChangeOverridesOneField(form: Object, name: string, value: string)
    ensures Get(HandleChange(form, name, value), name) == Str(value)
    ensures forall k :: k != name ==> Get(HandleChange(form, name, value), k) == Get(form, k)
    ensures name in Keys(form) ==> Keys(HandleChange(form, name, value)) == Keys(form)
    ensures DistinctKeys(form) ==> DistinctKeys(HandleChange(form, name, value))
  {
    GetWith(form, name, Str(value), name);
    forall k | k != name ensures Get(HandleChange(form, name, value), k) == Get(form, k) {
      GetWith(form, name, Str(value), k);
    }
    KeysWith(form, name, Str(value));
    if DistinctKeys(form) {
      WithKeepsDistinct(form, name, Str(value));
    }
  }

  /** Typing into the inputs never adds or removes a key of the form. */
  lemma {:induction false} TypingKeepsFields(form: Object, edits: seq<(string, string)>)
    requires Keys(form) == FieldNames
    requires forall e :: e in edits ==> e.0 in FieldNames
    ensures Keys(Typed(form, edits)) == FieldNames
    decreases |edits|
  {
    if edits != [] {
      var next := HandleChange(form, edits[0].0, edits[0].1);
      assert edits[0] in edits;
      ChangeOverridesOneField(form, edits[0].0, edits[0].1);
      assert forall e :: e in edits[1..] ==> e in edits;
      TypingKeepsFields(next, edits[1..]);
    }
  }

  /** The form after a sequence of `change` events, each an input name and its new value. */
  function Typed(form: Object, edits: seq<(string, string)>): Object
    decreases |edits|
  {
    if edits == [] then form else Typed(HandleChange(form, edits[0].0, edits[0].1), edits[1..])
  }

  /** The last value typed into an input is what the form holds for it. */
  lemma {:induction false} LastEditWins(form: Object, edits: seq<(string, string)>, k: string)
    ensures (forall e :: e in edits ==> e.0 != k) ==> Get(Typed(form, edits), k) == Get(form, k)
    ensures |edits| > 0 && edits[|edits| - 1].0 == k ==> Get(Typed(form, edits), k) == Str(edits[|edits| - 1].1)
    decreases |edits|
  {
    if edits != [] {
      var next := HandleChange(form, edits[0].0, edits[0].1);
      ChangeOverridesOneField(form, edits[0].0, edits[0].1);
      LastEditWins(next, edits[1..], k);
      assert forall e :: e in edits[1..] ==> e in edits;
      if |edits| == 1 {
        assert edits[1..] == [];
      } else {
        assert edits[1..][|edits| - 2] == edits[|edits| - 1];
      }
    }
  }

  /** What sending the form does: whether the default submission was stopped, what was logged and the next state. */
  datatype Submitted = Submitted(defaultPrevented: bool, logged: Object, next: Object)

  /** `handleSubmit`. */
  function HandleSubmit(form: Object): (s: Submitted)
    ensures s.defaultPrevented
    ensures s.logged == form
    ensures Keys(s.next) == FieldNames && forall k :: k in FieldNames ==> Get(s.next, k) == Str("")
  {
    Submitted(true, form, InitialForm())
  }
}
