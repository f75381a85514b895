/** The open/closed toggle shared by the FAQ accordion of the home page
    (`openFAQ === index ? null : index`) and the per-session menu of the
    sidebar (`openMenuId === id ? null : id`): one entry at most is open. */
module Disclosure {

  import opened Wrappers

  /** Clicking `x`: closes it when it is the open entry, otherwise opens it
      in place of whatever was open. */
  function Toggle<T(==)>(open: Option<T>, x: T): (r: Option<T>)
    ensures r == Some(x) <==> open != Some(x)
    ensures r.Some? ==> r.value == x
  {
    if open == Some(x) then None else Some(x)
  }

  /** A second click on the same entry undoes the first when that entry or
      nothing was open; when another entry was open, two clicks leave
      everything closed. */
  lemma ToggleTwice<T>(open: Option<T>, x: T)
    ensures Toggle(Toggle(open, x), x) == (if open == Some(x) then Some(x) else None)
  {
  }
}
