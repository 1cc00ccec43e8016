/** Vector clocks: the last LSN of every origin, 0 for an origin that has none. */
module VClocks {

  type VClock = map<nat, nat>

  function Get(v: VClock, o: nat): nat
  {
    if o in v then v[o] else 0
  }
}
