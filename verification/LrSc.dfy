/** Load-reserved / store-conditional over sequentially consistent memory: each
    hart holds at most one reservation, and a store to the reserved word by any
    other hart cancels it. */
module LrSc {
  import opened Machine

  /** Reservations of all harts, for locations of type `L`. */
  type Reservations<L> = seq<Option<L>>

  /** After hart `h` stores to `loc`: nobody else's reservation on it survives. */
  function Cancelled<L(==)>(rv: Reservations<L>, h: nat, loc: L): (r: Reservations<L>)
    ensures |r| == |rv|
  {
    seq(|rv|, g requires 0 <= g < |rv| => if g != h && rv[g] == Some(loc) then None else rv[g])
  }

  function Reserved<L>(rv: Reservations<L>, h: nat, loc: L): Reservations<L>
    requires h < |rv|
  {
    rv[h := Some(loc)]
  }

  function Dropped<L>(rv: Reservations<L>, h: nat): Reservations<L>
    requires h < |rv|
  {
    rv[h := None]
  }
}
