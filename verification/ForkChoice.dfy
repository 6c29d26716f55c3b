/** The fork choice rule (core/forkchoice.go). */
module ForkChoice {
  import opened Chain

  datatype Decision = MissingTd | Switch | Keep

  /** What the rule cannot compute from the two chains: whether the local preserve callback
      vouches for either block, and the outcome of the fair coin. */
  datatype Hints = Hints(currentPreserve: bool, externPreserve: bool, coin: bool)

  const NO_HINTS: Hints := Hints(false, false, false)

  /** From the terminal total difficulty on every header handed in is trusted. */
  predicate Trusted(ttd: Option<nat>, externTd: nat) {
    ttd.Some? && ttd.value <= externTd
  }

  /** The total difficulties do not decide. */
  predicate Tied(td: map<Hash, nat>, ttd: Option<nat>, current: Block, extern: Block)
    requires current in td && extern in td
  {
    !Trusted(ttd, td[extern]) && td[current] == td[extern]
  }

  function ReorgNeeded(td: map<Hash, nat>, ttd: Option<nat>, current: Block, extern: Block, hints: Hints): (d: Decision)
    ensures d.MissingTd? <==> current !in td || extern !in td
    // before the terminal total difficulty is reached, a switch never lowers the total difficulty
    ensures d.Switch? ==> Trusted(ttd, td[extern]) || td[current] <= td[extern]
    ensures !d.MissingTd? && td[current] < td[extern] ==> d.Switch?
    // at equal total difficulty a shorter chain wins; at equal height too, a preserved current block
    // stays, a preserved rival replaces any other, and a coin decides between the rest
    ensures !d.MissingTd? && Trusted(ttd, td[extern]) ==> d.Switch?
    ensures !d.MissingTd? && Tied(td, ttd, current, extern) && Number(extern) != Number(current) ==>
      (d.Switch? <==> Number(extern) < Number(current))
    ensures !d.MissingTd? && Tied(td, ttd, current, extern) && Number(extern) == Number(current) ==>
      && (hints.currentPreserve ==> d.Keep?)
      && (!hints.currentPreserve && hints.externPreserve ==> d.Switch?)
      && (!hints.currentPreserve && !hints.externPreserve ==> (d.Switch? <==> hints.coin))
  {
    if current !in td || extern !in td then MissingTd
    else if Trusted(ttd, td[extern]) then Switch
    else if td[current] < td[extern] then Switch
    else if td[extern] < td[current] then Keep
    else if Number(extern) < Number(current) then Switch
    else if Number(extern) == Number(current) && !hints.currentPreserve && (hints.externPreserve || hints.coin)
      then Switch
    else Keep
  }
}
