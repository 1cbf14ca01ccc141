/**
 * A growable list of rendered elements (a `JSX.Element[]` that the renderers
 * create and pass to each other to push onto).
 */
module Elements {

  class ElementList<T> {
    var items: seq<T>

    constructor ()
      ensures items == []
    {
      items := [];
    }

    /** `push`: appends one element and keeps the earlier ones in place. */
    method Push(e: T)
      modifies this
      ensures items == old(items) + [e]
    {
      items := items + [e];
    }
  }
}
