/**
 * The Channel and Event records the scheduler and the stimulator work with, the
 * first-match lookup by channel name both of them use, and the "stop at the first
 * failure" shape of the loops that send one setup frame per item.
 *
 * Channel and Event are kept as plain records: the fields the core reads and writes,
 * nothing of their own frame encodings.
 */
module Records {
  import opened Utility

  /** Message type of a stimulation event (the default event type of add_event). */
  const STIM_EVENT: byte := 0x03

  /** One stimulation output, identified by its name, with its safety ceilings. */
  datatype Channel = Channel(name: string, maxAmplitude: uint32, maxPulseWidth: uint32)

  /** One scheduled pulse bound to a channel, with its staged amplitude and pulse width. */
  datatype Event = Event(channelName: string, amplitude: uint32, pulseWidth: uint32,
                         eventType: byte, isVirtual: bool)

  function ChannelNames(channels: seq<Channel>): (names: seq<string>)
    ensures |names| == |channels|
    ensures forall i :: 0 <= i < |channels| ==> names[i] == channels[i].name
  {
    seq(|channels|, i requires 0 <= i < |channels| => channels[i].name)
  }

  function EventNames(events: seq<Event>): (names: seq<string>)
    ensures |names| == |events|
    ensures forall i :: 0 <= i < |events| ==> names[i] == events[i].channelName
  {
    seq(|events|, i requires 0 <= i < |events| => events[i].channelName)
  }

  /** The index of the first occurrence of `name` in `names`, scanning from the front. */
  function FirstIndex(names: seq<string>, name: string): (r: Option<nat>)
    ensures r.Some? ==> r.value < |names| && names[r.value] == name
    ensures r.Some? ==> forall j :: 0 <= j < r.value ==> names[j] != name
    ensures r.None? <==> name !in names
  {
    if names == [] then None
    else if names[0] == name then Some(0)
    else match FirstIndex(names[1..], name)
      case None => None
      case Some(i) => Some(i + 1)
  }

  /** Every one of `outcomes` is a success. */
  predicate AllSucceed(outcomes: seq<bool>)
  {
    forall i :: 0 <= i < |outcomes| ==> outcomes[i]
  }

  /**
   * A loop over `outcomes` that stops at the first failure made `attempted` attempts
   * and reported `ok`: all attempts before the last succeeded, and it either made
   * them all and every one succeeded, or its last attempt is the first failure.
   */
  predicate StopsAtFirstFailure(outcomes: seq<bool>, attempted: nat, ok: bool)
  {
    attempted <= |outcomes| &&
    (ok ==> attempted == |outcomes| && AllSucceed(outcomes)) &&
    (!ok ==> 1 <= attempted && !outcomes[attempted - 1] && AllSucceed(outcomes[..attempted - 1]))
  }

  /** The outcomes decide how far such a loop gets and what it reports. */
  lemma StopsAtFirstFailureUnique(outcomes: seq<bool>, a1: nat, ok1: bool, a2: nat, ok2: bool)
    requires StopsAtFirstFailure(outcomes, a1, ok1)
    requires StopsAtFirstFailure(outcomes, a2, ok2)
    ensures a1 == a2 && ok1 == ok2
  {
    if !ok1 && !ok2 {
      assert forall j :: 0 <= j < a1 - 1 ==> outcomes[..a1 - 1][j] == outcomes[j];
      assert forall j :: 0 <= j < a2 - 1 ==> outcomes[..a2 - 1][j] == outcomes[j];
    }
  }

  /** Such a loop reports success exactly when every outcome is a success. */
  lemma StopsAtFirstFailureOk(outcomes: seq<bool>, attempted: nat, ok: bool)
    requires StopsAtFirstFailure(outcomes, attempted, ok)
    ensures ok <==> AllSucceed(outcomes)
  {
    if !ok {
      assert !outcomes[attempted - 1];
    }
  }
}
