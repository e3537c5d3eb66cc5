/** The credit and key bookkeeping of a connection, the same for both transports. */
module Sockets {
  import opened DataFormat
  import opened Prefix

  datatype PostOutcome = Posted | NoCredits | DuplicateKey

  /** The program stops at the first completion whose key it does not know. */
  datatype PollOutcome = Polled(completed: seq<Iovec>) | UnknownKey(at: nat)

  ghost predicate AllPending(pending: map<nat, nat>, keys: seq<nat>) {
    Distinct(keys) && forall i :: 0 <= i < |keys| ==> keys[i] in pending
  }

  /** What the network reports for each connection is pending there. */
  ghost predicate Answers(pending: seq<map<nat, nat>>, completions: seq<seq<nat>>) {
    |pending| == |completions| && forall i :: 0 <= i < |pending| ==> AllPending(pending[i], completions[i])
  }

  function WithRequest(pending: map<nat, nat>, iov: Iovec): map<nat, nat> {
    pending[iov.base := iov.len]
  }

  /** The completions taken out of a table, up to the first whose key is not in it. */
  ghost predicate Took(before: map<nat, nat>, rest: map<nat, nat>, keys: seq<nat>, outcome: PollOutcome) {
    match outcome
    case Polled(completed) =>
      && rest == before - Elements(keys) && |completed| == |keys|
      && forall i :: 0 <= i < |keys| ==> keys[i] in before && completed[i] == Iovec(keys[i], before[keys[i]])
    case UnknownKey(at) =>
      at < |keys| && keys[at] !in rest && rest == before - Elements(keys[..at])
  }

  /** Takes completions out of a table of pending requests, one after the other. */
  method TakeCompleted(pending: map<nat, nat>, keys: seq<nat>) returns (rest: map<nat, nat>, outcome: PollOutcome)
    ensures outcome.Polled? <==> AllPending(pending, keys)
    ensures Took(pending, rest, keys, outcome)
    ensures outcome.Polled? <==> (forall i, j :: 0 <= i < j < |keys| ==> keys[i] != keys[j])
                                 && forall i :: 0 <= i < |keys| ==> keys[i] in pending
    ensures outcome.Polled? ==> forall key :: key in rest <==> key in pending && key !in keys
    ensures forall key :: key in rest ==> key in pending && rest[key] == pending[key]
  {
    rest := pending;
    var completed: seq<Iovec> := [];
    for i := 0 to |keys|
      invariant AllPending(pending, keys[..i]) && rest == pending - Elements(keys[..i])
      invariant |completed| == i
      invariant forall j :: 0 <= j < i ==> keys[j] in pending && completed[j] == Iovec(keys[j], pending[keys[j]])
    {
      if keys[i] !in rest {
        assert keys[i] in pending ==> keys[i] in keys[..i];
        return rest, UnknownKey(i);
      }
      completed := completed + [Iovec(keys[i], rest[keys[i]])];
      rest := map x | x in rest && x != keys[i] :: rest[x];
      assert keys[..i + 1] == keys[..i] + [keys[i]];
    }
    assert keys[..|keys|] == keys;
    outcome := Polled(completed);
  }

  class Socket {
    const credits: nat
    /** Length of each request under way, by the address that identifies it. */
    var pendingSend: map<nat, nat>
    var pendingRecv: map<nat, nat>

    constructor (credits: nat)
      ensures this.credits == credits && pendingSend == pendingRecv == map[]
    {
      this.credits := credits;
      pendingSend, pendingRecv := map[], map[];
    }

    predicate AvailableSend()
      reads this
    {
      |pendingSend| < credits
    }

    predicate AvailableRecv()
      reads this
    {
      |pendingRecv| < credits
    }

    method PostSend(iov: Iovec) returns (outcome: PostOutcome)
      modifies this`pendingSend
      ensures outcome.NoCredits? <==> credits <= |old(pendingSend)|
      ensures outcome.Posted? <==> |old(pendingSend)| < credits && iov.base !in old(pendingSend)
      ensures pendingSend == if outcome.Posted? then old(pendingSend)[iov.base := iov.len] else old(pendingSend)
    {
      if !AvailableSend() {
        return NoCredits;
      }
      if iov.base in pendingSend {
        return DuplicateKey;
      }
      pendingSend := pendingSend[iov.base := iov.len];
      outcome := Posted;
    }

    method PostRecv(iov: Iovec) returns (outcome: PostOutcome)
      modifies this`pendingRecv
      ensures outcome.NoCredits? <==> credits <= |old(pendingRecv)|
      ensures outcome.Posted? <==> |old(pendingRecv)| < credits && iov.base !in old(pendingRecv)
      ensures pendingRecv == if outcome.Posted? then old(pendingRecv)[iov.base := iov.len] else old(pendingRecv)
    {
      if !AvailableRecv() {
        return NoCredits;
      }
      if iov.base in pendingRecv {
        return DuplicateKey;
      }
      pendingRecv := pendingRecv[iov.base := iov.len];
      outcome := Posted;
    }

    /** `keys` identify the send completions the network reports. */
    method PollCompletedSend(keys: seq<nat>) returns (outcome: PollOutcome)
      modifies this`pendingSend
      ensures outcome.Polled? <==> AllPending(old(pendingSend), keys)
      ensures Took(old(pendingSend), pendingSend, keys, outcome)
    {
      pendingSend, outcome := TakeCompleted(pendingSend, keys);
    }

    method PollCompletedRecv(keys: seq<nat>) returns (outcome: PollOutcome)
      modifies this`pendingRecv
      ensures outcome.Polled? <==> AllPending(old(pendingRecv), keys)
      ensures Took(old(pendingRecv), pendingRecv, keys, outcome)
    {
      pendingRecv, outcome := TakeCompleted(pendingRecv, keys);
    }
  }
}
