/** Fork choice by total difficulty. */
module ForkChoice {
  import opened Util

  /** The answers the fork chooser takes from outside: the preserve callback on both headers
      and the random draw. */
  datatype Vote = Vote(currentPreserve: bool, externPreserve: bool, coin: bool)

  /** Whether the head should move to the external header; `None` when a difficulty is missing. */
  function ReorgNeeded(localTd: Option<nat>, externTd: Option<nat>, terminalTd: Option<nat>,
                       headNumber: nat, number: nat, vote: Vote): (r: Option<bool>)
    ensures r.Some? <==> localTd.Some? && externTd.Some?
    ensures r == Some(true) && (terminalTd.Some? ==> externTd.value < terminalTd.value) ==>
              externTd.value >= localTd.value
    ensures r == Some(false) ==>
              externTd.value <= localTd.value && (terminalTd.Some? ==> externTd.value < terminalTd.value)
    // a tie goes to the lower block, then to the preserved one, then to the draw
    ensures r.Some? && externTd == localTd && (terminalTd.Some? ==> externTd.value < terminalTd.value) ==>
              && (number < headNumber ==> r.value) && (number > headNumber ==> !r.value)
              && (number == headNumber && vote.currentPreserve ==> !r.value)
              && (number == headNumber && !vote.currentPreserve && vote.externPreserve ==> r.value)
              && (number == headNumber && !vote.currentPreserve && !vote.externPreserve ==> r.value == vote.coin)
  {
    if localTd.None? || externTd.None? then None
    else if terminalTd.Some? && terminalTd.value <= externTd.value then Some(true)
    else if externTd.value > localTd.value then Some(true)
    else if externTd.value == localTd.value then
      Some(number < headNumber ||
           (number == headNumber && !vote.currentPreserve && (vote.externPreserve || vote.coin)))
    else Some(false)
  }

  /** The view from the other side. */
  function Swapped(vote: Vote, coin: bool): Vote { Vote(vote.externPreserve, vote.currentPreserve, coin) }

  /** Without a terminal difficulty, a head that moved does not move back, except by the draw between blocks of equal
      difficulty and height of which neither is preserved. */
  lemma NoMoveBack(localTd: Option<nat>, externTd: Option<nat>, headNumber: nat, number: nat, vote: Vote, coin: bool)
    requires ReorgNeeded(localTd, externTd, None, headNumber, number, vote) == Some(true)
    ensures ReorgNeeded(externTd, localTd, None, number, headNumber, Swapped(vote, coin)) ==
              Some(coin && localTd == externTd && number == headNumber && !vote.currentPreserve && !vote.externPreserve)
  {
  }
}
