/** What the entry forms under src/components/forms share: the
    `!formData.x?.trim()` test of a required text input, the errors object
    a `validate` fills, the sanitised copy `handleSubmit` hands to `onSave`,
    and the list editors that rebuild one array field of the form. A form's
    data is a document; its errors object maps a field to its message (or
    to `null` once the message is cleared). */
module FormRules {
  import opened Wrappers
  import opened Json
  import opened Text
  import opened Sanitizer
  import opened Seqs
  import Validation

  // ---------------------------------------------------------------------------
  // Required text inputs

  /** What a text input holds: nothing, `null` or a string. Anything else
      would make `?.trim()` throw. */
  predicate TextLike(v: Option<Value>) {
    match v
    case None => true
    case Some(x) => x.Null? || x.Str?
  }

  /** `!v?.trim()`. */
  predicate NoText(v: Option<Value>)
    requires TextLike(v)
  {
    match v
    case Some(Str(s)) => Trim(s) == ""
    case _ => true
  }

  /** A required text input fails exactly when it is absent, `null` or blank. */
  lemma NoTextMeaning(v: Option<Value>)
    requires TextLike(v)
    ensures NoText(v) <==> (v.None? || v == Some(Null) || (v.value.Str? && IsBlank(v.value.s)))
  {
    if v.Some? && v.value.Str? {
      TrimEmptyIffBlank(v.value.s);
    }
  }

  /** For a text field, the form's test and the store's required-field test
      (`validateRequired`) agree. */
  lemma FormAndStoreAgreeOnText(d: Doc, k: string)
    requires TextLike(Field(d, k))
    ensures NoText(Field(d, k)) <==> Validation.Missing(d, k)
  {
    NoTextMeaning(Field(d, k));
  }

  /** `v < x` for a number `x`; NaN compares false. */
  predicate Less(v: Option<Value>, x: int) {
    NumberOf(v).Some? && NumberOf(v).value < x
  }

  // ---------------------------------------------------------------------------
  // Errors

  type Errors = Doc

  /** `if (failed) newErrors[field] = message`. */
  function Check(errors: Errors, failed: bool, field: string, message: string): (r: Errors)
    ensures failed ==> Field(r, field) == Some(Str(message))
    ensures forall k :: k != field ==> Field(r, k) == Field(errors, k)
    ensures !failed ==> r == errors
  {
    if failed then errors[field := Str(message)] else errors
  }

  /** `Object.keys(newErrors).length === 0`. */
  predicate NoErrors(errors: Errors) {
    |errors| == 0
  }

  lemma NoErrorsMeaning(errors: Errors)
    ensures NoErrors(errors) <==> forall k :: Field(errors, k).None?
  {
    if !NoErrors(errors) {
      var k :| k in errors;
      assert Field(errors, k).Some?;
    }
  }

  /** `setErrors(prev => ({ ...prev, [field]: null }))` when that field has
      a message: only that field's message is cleared. */
  function ClearError(errors: Errors, field: string): (r: Errors)
    ensures Truthy(Field(errors, field)) ==> Field(r, field) == Some(Null)
    ensures !Truthy(Field(errors, field)) ==> r == errors
    ensures forall k :: k != field ==> Field(r, k) == Field(errors, k)
  {
    if Truthy(Field(errors, field)) then errors[field := Null] else errors
  }

  // ---------------------------------------------------------------------------
  // Submitting

  /** `{ ...formData, k1: sanitizeInput(formData.k1), ... }` for the listed keys. */
  function SanitizeFields(d: Doc, keys: seq<string>): (r: Doc)
    ensures forall k :: k in keys ==> Field(r, k) == SanitizeValue(Field(d, k))
    ensures forall k :: k !in keys ==> Field(r, k) == Field(d, k)
  {
    if keys == [] then d
    else SetField(SanitizeFields(d, keys[1..]), keys[0], SanitizeValue(Field(d, keys[0])))
  }

  /** `handleSubmit`: an invalid form calls `onSave` with nothing
      (`None`); a valid one hands over the sanitised copy. */
  function Submit(d: Doc, errors: Errors, keys: seq<string>): Option<Doc> {
    if NoErrors(errors) then Some(SanitizeFields(d, keys)) else None
  }

  /** Submitting escapes exactly the listed fields and passes every other
      field (the document id of an edited record included) unchanged. */
  lemma SubmitEscapesExactly(d: Doc, errors: Errors, keys: seq<string>)
    ensures Submit(d, errors, keys).Some? <==> NoErrors(errors)
    ensures Submit(d, errors, keys).Some? ==>
      (forall k :: k in keys ==> Field(Submit(d, errors, keys).value, k) == SanitizeValue(Field(d, k))) &&
      (forall k :: k !in keys ==> Field(Submit(d, errors, keys).value, k) == Field(d, k))
  {
  }

  /** A listed field holding a string is stored escaped; one holding
      anything else is stored as it was. */
  lemma SubmittedField(d: Doc, errors: Errors, keys: seq<string>, k: string)
    requires NoErrors(errors) && k in keys
    ensures k in d && d[k].Str? ==> Field(Submit(d, errors, keys).value, k) == Some(Str(SanitizeText(d[k].s)))
    ensures !(k in d && d[k].Str?) ==> Field(Submit(d, errors, keys).value, k) == Field(d, k)
  {
  }

  /** Editing a stored record and saving it escapes its text again: a name
      stored as "&amp;" comes back as "&amp;amp;". */
  lemma ResavingEscapesAgain(d: Doc, errors: Errors, keys: seq<string>, k: string, rest: string)
    requires NoErrors(errors) && k in keys && Field(d, k) == Some(Str("&" + rest))
    ensures Field(Submit(d, errors, keys).value, k) == Some(Str("&amp;" + SanitizeText(rest)))
  {
    AmpersandEscapedAgain(rest);
  }

  // ---------------------------------------------------------------------------
  // Numeric inputs

  /** `parseInt(text) || fallback`; `parsed` is what `parseInt` gave,
      `None` for NaN. */
  function OrFallback(parsed: Option<int>, fallback: int): (r: int)
    ensures parsed.Some? && parsed.value != 0 ==> r == parsed.value
    ensures parsed.None? || parsed == Some(0) ==> r == fallback
  {
    if parsed.Some? && parsed.value != 0 then parsed.value else fallback
  }

  // ---------------------------------------------------------------------------
  // Array fields

  predicate ListField(d: Doc, k: string) {
    k in d && d[k].Arr?
  }

  function ListOf(d: Doc, k: string): seq<Value>
    requires ListField(d, k)
  {
    d[k].elems
  }

  /** `{ ...prev, [k]: xs }`. */
  function WithList(d: Doc, k: string, xs: seq<Value>): (r: Doc)
    ensures ListField(r, k) && ListOf(r, k) == xs
    ensures forall j :: j != k ==> Field(r, j) == Field(d, j)
  {
    d[k := Arr(xs)]
  }

  /** `xs.includes(x) ? xs.filter(y => y !== x) : [...xs, x]`. */
  function Toggle(xs: seq<Value>, x: Value): seq<Value> {
    if x in xs then Filter(xs, (y: Value) => y != x) else xs + [x]
  }

  /** Toggling a present value removes every occurrence; toggling an absent
      one appends it once. */
  lemma ToggleMeaning(xs: seq<Value>, x: Value)
    ensures x in xs ==> x !in Toggle(xs, x) && |Toggle(xs, x)| < |xs|
    ensures x !in xs ==> Toggle(xs, x) == xs + [x]
  {
    if x in xs {
      FilterShrinks(xs, (y: Value) => y != x, x);
    }
  }

  lemma {:induction false} FilterShrinks(xs: seq<Value>, p: Value -> bool, x: Value)
    requires x in xs && !p(x)
    ensures |Filter(xs, p)| < |xs|
  {
    if xs[0] != x {
      assert x in xs[1..];
      FilterShrinks(xs[1..], p, x);
    }
  }

  /** Toggling an absent value twice restores the list exactly. */
  lemma ToggleTwiceRestores(xs: seq<Value>, x: Value)
    requires x !in xs
    ensures Toggle(Toggle(xs, x), x) == xs
  {
    var p := (y: Value) => y != x;
    FilterAppend(xs, [x], p);
    FilterAll(xs, p);
    assert Filter([x], p) == [];
  }

  /** Toggling never affects any other value: the list without `x` is the
      same before and after. */
  lemma ToggleKeepsOthers(xs: seq<Value>, x: Value)
    ensures Filter(Toggle(xs, x), (y: Value) => y != x) == Filter(xs, (y: Value) => y != x)
  {
    var p := (y: Value) => y != x;
    if x in xs {
      FilterFilter(xs, p, p, p);
    } else {
      FilterAppend(xs, [x], p);
      assert Filter([x], p) == [];
    }
  }

  /** `xs.map((item, j) => j === i ? f(item) : item)`. */
  function MapAt(xs: seq<Value>, i: int, f: Value -> Value): (r: seq<Value>)
    ensures |r| == |xs|
    ensures forall j :: 0 <= j < |xs| && j != i ==> r[j] == xs[j]
    ensures 0 <= i < |xs| ==> r[i] == f(xs[i])
  {
    seq(|xs|, j requires 0 <= j < |xs| => if j == i then f(xs[j]) else xs[j])
  }

  /** `item[k]` for a list element; an element that is not an object has
      no members (`undefined`). */
  function MemberOf(item: Value, k: string): (r: Option<Value>)
    ensures item.Obj? ==> r == Field(item.fields, k)
    ensures !item.Obj? ==> r.None?
  {
    if item.Obj? then Field(item.fields, k) else None
  }

  /** `{ ...item, [k]: v }` for an object `item`. Spreading null, a number
      or a boolean contributes nothing, so only the new key remains; the
      index keys a string or an array would spread are not modelled. */
  function SetMember(item: Value, k: string, v: Value): (r: Value)
    ensures r.Obj? && k in r.fields && r.fields[k] == v
    ensures item.Obj? ==> forall j :: j != k ==> Field(r.fields, j) == Field(item.fields, j)
  {
    if item.Obj? then Obj(item.fields[k := v]) else Obj(map[k := v])
  }
}
