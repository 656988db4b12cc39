/** The JavaScript `value || fallback` idiom the dialogs use to default
    properties of the object they are opened with. */
module Js {
  import opened Wrappers

  /** A string property is truthy when it is present and not the empty string. */
  predicate Truthy(v: Option<string>) {
    v.Some? && v.value != ""
  }

  /** `r` is what `v || fallback` may yield: the property itself when it is
      truthy, the fallback when it is absent or empty. */
  predicate Defaulted(r: string, v: Option<string>, fallback: string) {
    (Truthy(v) ==> r == v.value) && (!Truthy(v) ==> r == fallback)
  }

  /** `v || fallback` for a string property that may be absent. */
  function Or(v: Option<string>, fallback: string): string {
    if Truthy(v) then v.value else fallback
  }

  /** `v || []` for an array property: an array, even an empty one, is truthy,
      so only an absent array is replaced. */
  function OrEmptyList(v: Option<seq<string>>): seq<string> {
    v.GetOr([])
  }
}
