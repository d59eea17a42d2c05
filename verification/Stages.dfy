/**
  The three passes of one exchange step over the peers in rank order: post receives, post
  sends, then poll. A rank is at pass position next and skips itself.
 */
module Stages {
  datatype Stage = Recvs(next: nat) | Sends(next: nat) | Polls(next: nat)

  function StageAfter(n: nat, st: Stage): Stage {
    match st
    case Recvs(i) => if i < n then Recvs(i + 1) else Sends(0)
    case Sends(i) => if i < n then Sends(i + 1) else Polls(0)
    case Polls(i) => Polls(i + 1)
  }
}
