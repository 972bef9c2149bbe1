/**
 * The partially filled `params` dictionary that every operation receives.
 * A missing key is `None`. Python truthiness, which `params.get(...)`
 * tests rely on, is spelled out by the predicates below.
 */
module Descriptors {
  import opened Tables

  /**
   * A `number` or `new_number` value: one integer or a list of integers,
   * each held as its decimal text `str(n)`.
   */
  datatype NumberArg = One(digits: string) | Many(items: seq<string>)

  datatype Descriptor = Descriptor(
    clientId: Option<int>,
    name: Option<string>,
    surname: Option<string>,
    mail: Option<string>,
    number: Option<NumberArg>,
    newName: Option<string>,
    newSurname: Option<string>,
    newMail: Option<string>,
    newNumber: Option<NumberArg>)

  /** The empty dictionary `{}`. */
  const NO_INFO := Descriptor(None, None, None, None, None, None, None, None, None)

  /** `params.get('client_id')` is truthy: present and not 0. */
  predicate IdGiven(d: Descriptor) {
    d.clientId.Some? && d.clientId.value != 0
  }

  /** `params.get(key)` is truthy for a text field: present and not empty. */
  predicate Given(field: Option<string>) {
    field.Some? && field.value != ""
  }

  /** Truthiness of a number value: the integer 0 and the empty list are false. */
  predicate Truthy(a: NumberArg) {
    match a
    case One(s) => s != "0"
    case Many(xs) => xs != []
  }

  /** `params.get('number')` is truthy. */
  predicate NumberGiven(d: Descriptor) {
    d.number.Some? && Truthy(d.number.value)
  }

  /** `[numbers] if isinstance(numbers, int) else numbers`, as texts. */
  function Items(a: NumberArg): (r: seq<string>)
    ensures a.One? ==> r == [a.digits]
    ensures a.Many? ==> r == a.items
  {
    match a
    case One(s) => [s]
    case Many(xs) => xs
  }

  /** `number[0] if isinstance(number, list) else number`. */
  function First(a: NumberArg): (r: string)
    requires Truthy(a)
    ensures r == Items(a)[0]
  {
    match a
    case One(s) => s
    case Many(xs) => xs[0]
  }

  /** `', '.join(xs)` */
  function Join(xs: seq<string>): string {
    if xs == [] then ""
    else if |xs| == 1 then xs[0]
    else xs[0] + ", " + Join(xs[1..])
  }

  /** `str(a)`: the decimal text of an integer, or Python's display of a list. */
  function Repr(a: NumberArg): (r: string)
    ensures a.One? ==> r == a.digits
    ensures a.Many? ==> |r| >= 2 && r[0] == '['
  {
    match a
    case One(s) => s
    case Many(xs) => "[" + Join(xs) + "]"
  }
}
