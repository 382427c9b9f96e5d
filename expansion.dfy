/**
 * The `openMenu` dictionary: which routes are expanded, keyed by the bare
 * route key across the whole tree. It is a plain object, so reading a key
 * that was never stored falls through to `Object.prototype`: a missing key
 * reads as collapsed unless it names one of the prototype's members.
 */
module Expansion {
  type OpenMenu = map<string, bool>

  /**
   * The property names every plain object inherits from `Object.prototype`.
   * Each of them reads as a truthy value (a function, or for `__proto__` the
   * prototype object itself).
   */
  const Inherited: set<string> := {
    "constructor", "hasOwnProperty", "isPrototypeOf", "propertyIsEnumerable",
    "toLocaleString", "toString", "valueOf", "__proto__",
    "__defineGetter__", "__defineSetter__", "__lookupGetter__", "__lookupSetter__"
  }

  /**
   * `openMenu[key]` read as a flag: a stored key gives its stored value; a
   * missing key is `undefined` (collapsed), except that an inherited
   * prototype member reads as expanded.
   */
  predicate IsOpen(openMenu: OpenMenu, key: string): (open: bool)
    ensures key in openMenu ==> (open <==> openMenu[key])
    ensures key !in openMenu ==> (open <==> key in Inherited)
  {
    if key in openMenu then openMenu[key] else key in Inherited
  }

  /** The dictionary produced by one toggle of `key`: only that key changes. */
  function Toggled(openMenu: OpenMenu, key: string): (r: OpenMenu)
    ensures IsOpen(r, key) == !IsOpen(openMenu, key)
    ensures r.Keys == openMenu.Keys + {key}
    ensures forall k :: k in openMenu && k != key ==> r[k] == openMenu[k]
  {
    openMenu[key := !IsOpen(openMenu, key)]
  }

  /** The first toggle of an ordinary key that was never set expands it. */
  lemma FirstToggleOpens(openMenu: OpenMenu, key: string)
    requires key !in openMenu && key !in Inherited
    ensures key in Toggled(openMenu, key) && Toggled(openMenu, key)[key]
  {
  }

  /**
   * A key naming a prototype member reads as expanded before it is ever
   * stored, so its first toggle stores `false` and collapses it.
   */
  lemma FirstToggleOfInheritedCloses(openMenu: OpenMenu, key: string)
    requires key !in openMenu && key in Inherited
    ensures key in Toggled(openMenu, key) && !Toggled(openMenu, key)[key]
  {
  }

  /** A toggle leaves the flag of every other key as it was. */
  lemma ToggleFrame(openMenu: OpenMenu, key: string, other: string)
    requires other != key
    ensures IsOpen(Toggled(openMenu, key), other) == IsOpen(openMenu, other)
  {
  }

  /** Two maps that agree on every flag; all the walker can observe. */
  ghost predicate SameFlags(m1: OpenMenu, m2: OpenMenu) {
    forall k :: IsOpen(m1, k) == IsOpen(m2, k)
  }

  /** Toggling the same key twice restores every flag. */
  lemma ToggleTwiceRestores(openMenu: OpenMenu, key: string)
    ensures SameFlags(Toggled(Toggled(openMenu, key), key), openMenu)
  {
  }
}
