/** `hook_ichol`: binds a discard threshold and a shift list into the
    preconditioner the matting solver calls. The incomplete Cholesky
    factorisation `ichol` is one fixed external function and does not
    appear: the closure is modelled by the threshold and shift list it
    captures, since closures with equal captured values behave alike. */
module Preconditioner {

  /** The default discard threshold, 1e-4. */
  const DEFAULT_DISCARD_THRESHOLD: real := 0.0001

  /** The default shifts, 0 then 1e-4 up to 1e5, tried in this order. */
  const DEFAULT_SHIFTS: seq<real> :=
    [0.0, 0.0001, 0.001, 0.01, 0.1, 0.5, 1.0, 10.0, 100.0, 1000.0, 10000.0, 100000.0]

  predicate StrictlyAscending(s: seq<real>) {
    forall i, j :: 0 <= i < j < |s| ==> s[i] < s[j]
  }

  /** What the closure `my_ichol` captures: the threshold and the shift list
      it hands to the external factorisation on every call. */
  datatype IcholConfig = IcholConfig(discardThreshold: real, shifts: seq<real>)

  /** `hook_ichol(discard_threshold, shifts)`. */
  function HookIchol(discardThreshold: real, shifts: seq<real>): (c: IcholConfig)
    ensures c.discardThreshold == discardThreshold && c.shifts == shifts
  {
    IcholConfig(discardThreshold, shifts)
  }

  /** `hook_ichol()` with its defaults: threshold 1e-4 and twelve strictly
      ascending shifts from 0 to 1e5. */
  function DefaultIchol(): (c: IcholConfig)
    ensures c.discardThreshold == 0.0001
    ensures |c.shifts| == 12 && c.shifts[0] == 0.0 && c.shifts[11] == 100000.0
    ensures StrictlyAscending(c.shifts)
  {
    HookIchol(DEFAULT_DISCARD_THRESHOLD, DEFAULT_SHIFTS)
  }
}
