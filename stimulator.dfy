/**
 * The stimulator façade: owns the serial handle, the channel list, one scheduler and
 * four snapshot arrays. Port operations (open, configure, close), each channel's setup
 * frame and every transmission are reduced to their outcomes, passed in by the caller.
 * While the stimulator is not enabled, begin, set_amp(s), write_pw(s), update,
 * create_scheduler and add_event(s) are refused: they return false or leave the scheduler
 * untouched. halt_scheduler and update_max_amp/pw act whether enabled or not.
 */
module Stimulators {
  import opened Utility
  import opened Records
  import opened Schedulers

  /** The two safety ceilings of a channel that update_max_amp and update_max_pw change. */
  datatype Limit = MaxAmplitude | MaxPulseWidth

  function WithLimit(c: Channel, l: Limit, v: uint32): Channel
  {
    match l
    case MaxAmplitude => c.(maxAmplitude := v)
    case MaxPulseWidth => c.(maxPulseWidth := v)
  }

  /** `channels` after setting limit `l` of the first channel called `name` to `v`. */
  function Limited(channels: seq<Channel>, l: Limit, name: string, v: uint32): (r: seq<Channel>)
    ensures |r| == |channels|
    ensures ChannelNames(r) == ChannelNames(channels)
  {
    match FirstIndex(ChannelNames(channels), name)
    case None => channels
    case Some(i) => channels[i := WithLimit(channels[i], l, v)]
  }

  /**
   * Only the first channel with the name changes, and only in the one limit; with no
   * channel of that name nothing changes.
   */
  lemma LimitedChangesFirstMatchOnly(channels: seq<Channel>, l: Limit, name: string, v: uint32)
    ensures name !in ChannelNames(channels) ==> Limited(channels, l, name, v) == channels
    ensures forall i :: 0 <= i < |channels| && Limited(channels, l, name, v)[i] != channels[i] ==>
              channels[i].name == name && forall j :: 0 <= j < i ==> channels[j].name != name
    ensures forall i :: (0 <= i < |channels| && channels[i].name == name &&
                         forall j :: 0 <= j < i ==> channels[j].name != name) ==>
              Limited(channels, l, name, v)[i] == WithLimit(channels[i], l, v)
  {
    var names := ChannelNames(channels);
    match FirstIndex(names, name)
    case None =>
    case Some(k) =>
      forall i | 0 <= i < |channels| && channels[i].name == name
        && (forall j :: 0 <= j < i ==> channels[j].name != name)
        ensures i == k
      {
        assert names[i] == name && names[k] == name;
      }
  }

  /** The stage-by-stage result of set_amps / write_pws: each pair in turn, the later ones last. */
  function StagedAll(events: seq<Event>, s: Setting, channels: seq<Channel>, values: seq<int32>): seq<Event>
    requires |values| >= |channels|
    decreases |channels|
  {
    if channels == [] then events
    else Staged(StagedAll(events, s, channels[..|channels| - 1], values), s,
                channels[|channels| - 1].name, ToUint32(values[|channels| - 1]))
  }

  /** set_amps never touches pulse widths, and write_pws never touches amplitudes. */
  lemma {:induction false} StagedAllKeepsOtherSetting(events: seq<Event>, s: Setting, channels: seq<Channel>,
                                                       values: seq<int32>, s': Setting, name: string)
    requires |values| >= |channels|
    requires s' != s
    ensures ValueOf(StagedAll(events, s, channels, values), s', name) == ValueOf(events, s', name)
    decreases |channels|
  {
    if channels != [] {
      var prefix := channels[..|channels| - 1];
      StagedAllKeepsOtherSetting(events, s, prefix, values, s', name);
      StagedKeepsOthers(StagedAll(events, s, prefix, values), s, channels[|channels| - 1].name,
                        ToUint32(values[|channels| - 1]), s', name);
    }
  }

  /** A channel that appears nowhere in the list keeps its staged value. */
  lemma {:induction false} StagedAllKeepsUnlisted(events: seq<Event>, s: Setting, channels: seq<Channel>,
                                                   values: seq<int32>, name: string)
    requires |values| >= |channels|
    requires forall k :: 0 <= k < |channels| ==> channels[k].name != name
    ensures ValueOf(StagedAll(events, s, channels, values), s, name) == ValueOf(events, s, name)
    decreases |channels|
  {
    if channels != [] {
      var prefix := channels[..|channels| - 1];
      StagedAllKeepsUnlisted(events, s, prefix, values, name);
      StagedKeepsOthers(StagedAll(events, s, prefix, values), s, channels[|channels| - 1].name,
                        ToUint32(values[|channels| - 1]), s, name);
    }
  }

  /**
   * For a channel that has an event, the value staged last wins: the one paired with its
   * last occurrence in the list, narrowed from `int` to `unsigned int`.
   */
  lemma {:induction false} StagedAllLastWins(events: seq<Event>, s: Setting, channels: seq<Channel>,
                                              values: seq<int32>, k: nat)
    requires |values| >= |channels|
    requires k < |channels|
    requires channels[k].name in EventNames(events)
    requires forall j :: k < j < |channels| ==> channels[j].name != channels[k].name
    ensures ValueOf(StagedAll(events, s, channels, values), s, channels[k].name) == ToUint32(values[k])
    decreases |channels|
  {
    var n := |channels|;
    var prefix := channels[..n - 1];
    var name := channels[k].name;
    var before := StagedAll(events, s, prefix, values);
    var last := channels[n - 1].name;
    assert StagedAll(events, s, channels, values) == Staged(before, s, last, ToUint32(values[n - 1]));
    if k == n - 1 {
      StagedAllKeepsNames(events, s, prefix, values);
      StagedThenRead(before, s, name, ToUint32(values[k]));
    } else {
      assert last != name;
      assert prefix[k] == channels[k];
      assert forall j :: k < j < |prefix| ==> prefix[j] == channels[j];
      StagedAllLastWins(events, s, prefix, values, k);
      StagedKeepsOthers(before, s, last, ToUint32(values[n - 1]), s, name);
    }
  }

  lemma {:induction false} StagedAllKeepsNames(events: seq<Event>, s: Setting, channels: seq<Channel>,
                                                values: seq<int32>)
    requires |values| >= |channels|
    ensures EventNames(StagedAll(events, s, channels, values)) == EventNames(events)
    decreases |channels|
  {
    if channels != [] {
      StagedAllKeepsNames(events, s, channels[..|channels| - 1], values);
    }
  }

  /**
   * The event Stimulator::add_event appends. Its event type lands in the scheduler's
   * `is_virtual_` parameter, so the event is virtual exactly when the type is non-zero
   * and its own type is always the default, STIM_EVENT.
   */
  function AddedEvent(channel: Channel, eventType: byte): (e: Event)
    ensures e.channelName == channel.name
    ensures e.eventType == STIM_EVENT
    ensures e.isVirtual <==> eventType != 0
  {
    NewEvent(channel, eventType != 0, STIM_EVENT)
  }

  function AddedEvents(channels: seq<Channel>, eventType: byte): (es: seq<Event>)
    ensures |es| == |channels|
    ensures forall i :: 0 <= i < |channels| ==> es[i] == AddedEvent(channels[i], eventType)
  {
    seq(|channels|, i requires 0 <= i < |channels| => AddedEvent(channels[i], eventType))
  }

  class Stimulator {
    const name: string
    const comPort: string
    var enabled: bool
    var channels: seq<Channel>
    const scheduler: Scheduler
    /** The number of slots in each snapshot array. */
    const numEvents: nat
    var channelNames: seq<string>
    const amplitudes: array<uint32>
    const pulsewidths: array<uint32>
    const maxAmplitudes: array<uint32>
    const maxPulsewidths: array<uint32>

    /** The four snapshot arrays are distinct, `numEvents` long, and no longer than the channel list. */
    ghost predicate Valid()
      reads this
    {
      amplitudes.Length == numEvents && pulsewidths.Length == numEvents &&
      maxAmplitudes.Length == numEvents && maxPulsewidths.Length == numEvents &&
      numEvents <= |channels| &&
      amplitudes != pulsewidths && amplitudes != maxAmplitudes && amplitudes != maxPulsewidths &&
      pulsewidths != maxAmplitudes && pulsewidths != maxPulsewidths && maxAmplitudes != maxPulsewidths
    }

    /**
     * Sizes the four snapshot arrays to `size` zeros, copies the first `size` channels'
     * ceilings and names, then enables the stimulator.
     */
    constructor (name: string, comPort: string, channels: seq<Channel>, size: nat,
                 openSucceeds: bool, configureSucceeds: bool, setupOutcomes: seq<bool>)
      requires size <= |channels|
      requires |setupOutcomes| == |channels|
      ensures Valid()
      ensures this.name == name && this.comPort == comPort
      ensures this.channels == channels && numEvents == size
      ensures fresh(scheduler) && scheduler.events == [] && !scheduler.enabled
      ensures fresh(amplitudes) && fresh(pulsewidths) && fresh(maxAmplitudes) && fresh(maxPulsewidths)
      ensures forall i :: 0 <= i < size ==>
                amplitudes[i] == 0 && pulsewidths[i] == 0 &&
                maxAmplitudes[i] == channels[i].maxAmplitude && maxPulsewidths[i] == channels[i].maxPulseWidth
      ensures channelNames == ChannelNames(channels[..size])
      ensures enabled <==> openSucceeds && configureSucceeds && AllSucceed(setupOutcomes)
    {
      this.name := name;
      this.comPort := comPort;
      this.channels := channels;
      enabled := false;
      scheduler := new Scheduler();
      numEvents := size;
      amplitudes := new uint32[size](_ => 0);
      pulsewidths := new uint32[size](_ => 0);
      maxAmplitudes := new uint32[size](_ => 0);
      maxPulsewidths := new uint32[size](_ => 0);
      channelNames := [];
      new;
      var i := 0;
      while i < size
        invariant 0 <= i <= size
        invariant Valid()
        invariant this.channels == channels && !scheduler.enabled && scheduler.events == []
        invariant channelNames == ChannelNames(channels[..i])
        invariant forall j :: 0 <= j < i ==>
                    maxAmplitudes[j] == channels[j].maxAmplitude && maxPulsewidths[j] == channels[j].maxPulseWidth
        invariant forall j :: 0 <= j < size ==> amplitudes[j] == 0 && pulsewidths[j] == 0
        modifies this`channelNames, maxAmplitudes, maxPulsewidths
      {
        maxAmplitudes[i] := channels[i].maxAmplitude;
        maxPulsewidths[i] := channels[i].maxPulseWidth;
        channelNames := channelNames + [channels[i].name];
        assert channels[..i + 1][..i] == channels[..i];
        i := i + 1;
      }
      var _, _, _ := Enable(openSucceeds, configureSucceeds, setupOutcomes);
    }

    /**
     * enable: open the port, configure it, set up every channel, in that order; the first
     * step that fails skips the rest and leaves the stimulator disabled.
     * `configureCalled` says whether configure_port ran, `setupAttempted` how many
     * channels setup_channel was called on.
     */
    method Enable(openSucceeds: bool, configureSucceeds: bool, setupOutcomes: seq<bool>)
      returns (ok: bool, configureCalled: bool, setupAttempted: nat)
      requires Valid()
      requires |setupOutcomes| == |channels|
      modifies this`enabled
      ensures Valid()
      ensures enabled == ok
      ensures ok <==> openSucceeds && configureSucceeds && AllSucceed(setupOutcomes)
      ensures configureCalled == openSucceeds
      ensures !(openSucceeds && configureSucceeds) ==> setupAttempted == 0
      ensures openSucceeds && configureSucceeds ==> StopsAtFirstFailure(setupOutcomes, setupAttempted, ok)
    {
      configureCalled, setupAttempted := false, 0;
      if !openSucceeds {
        enabled := false;
        return enabled, configureCalled, setupAttempted;
      }
      configureCalled := true;
      if !configureSucceeds {
        enabled := false;
        return enabled, configureCalled, setupAttempted;
      }
      var initialized;
      initialized, setupAttempted := InitializeBoard(setupOutcomes);
      StopsAtFirstFailureOk(setupOutcomes, setupAttempted, initialized);
      if !initialized {
        enabled := false;
        return enabled, configureCalled, setupAttempted;
      }
      enabled := true;
      return enabled, configureCalled, setupAttempted;
    }

    /**
     * initialize_board: setup_channel on each channel in index order (its outcome is
     * `setupOutcomes[i]`), returning false at the first failure without touching the
     * channels after it.
     */
    method InitializeBoard(setupOutcomes: seq<bool>) returns (ok: bool, attempted: nat)
      requires Valid()
      requires |setupOutcomes| == |channels|
      ensures Valid()
      ensures StopsAtFirstFailure(setupOutcomes, attempted, ok)
    {
      var i := 0;
      while i < |channels|
        invariant 0 <= i <= |channels|
        invariant AllSucceed(setupOutcomes[..i])
      {
        if !setupOutcomes[i] {
          return false, i + 1;
        }
        assert setupOutcomes[..i + 1] == setupOutcomes[..i] + [setupOutcomes[i]];
        i := i + 1;
      }
      assert setupOutcomes[..i] == setupOutcomes;
      return true, |channels|;
    }

    /**
     * disable: when enabled, disables the scheduler and closes the handle; either way the
     * stimulator ends up disabled. `closedHandle` says whether the handle was closed.
     */
    method Disable() returns (closedHandle: bool)
      requires Valid()
      modifies this`enabled, scheduler`enabled
      ensures Valid()
      ensures !enabled
      ensures closedHandle == old(enabled)
      ensures scheduler.enabled == (old(scheduler.enabled) && !old(enabled))
      ensures scheduler.id == old(scheduler.id) && scheduler.events == old(scheduler.events)
      ensures scheduler.syncChar == old(scheduler.syncChar)
    {
      closedHandle := false;
      if IsEnabled() {
        scheduler.Disable();
        CloseStimulator();
        closedHandle := true;
      }
      enabled := false;
    }

    /** close_stimulator: closes the handle (not modelled) and marks the stimulator disabled. */
    method CloseStimulator()
      requires Valid()
      modifies this`enabled
      ensures Valid()
      ensures !enabled
    {
      enabled := false;
    }

    method HaltScheduler(sendSucceeds: bool) returns (ok: bool)
      requires Valid()
      modifies scheduler`enabled
      ensures Valid()
      ensures ok == sendSucceeds
      ensures scheduler.enabled == (old(scheduler.enabled) && !sendSucceeds)
    {
      ok := scheduler.HaltScheduler(sendSucceeds);
    }

    /** begin: when enabled, sends the scheduler's sync byte; otherwise refuses. */
    method Begin(sendSucceeds: bool) returns (ok: bool)
      requires Valid()
      modifies this`enabled, scheduler`enabled
      ensures Valid()
      ensures enabled == old(enabled)
      ensures !enabled ==> !ok && scheduler.enabled == old(scheduler.enabled)
      ensures enabled ==> ok == sendSucceeds && scheduler.enabled == (old(scheduler.enabled) || sendSucceeds)
    {
      if IsEnabled() {
        enabled := true;
        ok := scheduler.SendSyncMsg(sendSucceeds);
      } else {
        ok := false;
      }
    }

    /** set_amp: forwards to the scheduler only when enabled. */
    method SetAmp(channel: Channel, amp: uint32)
      requires Valid()
      modifies scheduler`events
      ensures Valid()
      ensures scheduler.events == if enabled then Staged(old(scheduler.events), Amplitude, channel.name, amp)
                                  else old(scheduler.events)
    {
      if IsEnabled() {
        scheduler.SetAmp(channel, amp);
      }
    }

    /** set_amps: set_amp for each channel in turn, each `int` amplitude narrowed to `unsigned int`. */
    method SetAmps(channelList: seq<Channel>, amplitudeList: seq<int32>)
      requires Valid()
      requires |amplitudeList| >= |channelList|
      modifies scheduler`events
      ensures Valid()
      ensures scheduler.events == if enabled then StagedAll(old(scheduler.events), Amplitude, channelList, amplitudeList)
                                  else old(scheduler.events)
    {
      var i := 0;
      while i < |channelList|
        invariant 0 <= i <= |channelList|
        invariant scheduler.events == if enabled then StagedAll(old(scheduler.events), Amplitude, channelList[..i], amplitudeList)
                                      else old(scheduler.events)
      {
        SetAmp(channelList[i], ToUint32(amplitudeList[i]));
        assert channelList[..i + 1][..i] == channelList[..i];
        i := i + 1;
      }
      assert channelList[..i] == channelList;
    }

    /** write_pws: write_pw for each channel in turn, each `int` pulse width narrowed to `unsigned int`. */
    method WritePws(channelList: seq<Channel>, pulsewidthList: seq<int32>)
      requires Valid()
      requires |pulsewidthList| >= |channelList|
      modifies scheduler`events
      ensures Valid()
      ensures scheduler.events == if enabled then StagedAll(old(scheduler.events), PulseWidth, channelList, pulsewidthList)
                                  else old(scheduler.events)
    {
      var i := 0;
      while i < |channelList|
        invariant 0 <= i <= |channelList|
        invariant scheduler.events == if enabled then StagedAll(old(scheduler.events), PulseWidth, channelList[..i], pulsewidthList)
                                      else old(scheduler.events)
      {
        WritePw(channelList[i], ToUint32(pulsewidthList[i]));
        assert channelList[..i + 1][..i] == channelList[..i];
        i := i + 1;
      }
      assert channelList[..i] == channelList;
    }

    /** write_pw: forwards to the scheduler only when enabled. */
    method WritePw(channel: Channel, pw: uint32)
      requires Valid()
      modifies scheduler`events
      ensures Valid()
      ensures scheduler.events == if enabled then Staged(old(scheduler.events), PulseWidth, channel.name, pw)
                                  else old(scheduler.events)
    {
      if IsEnabled() {
        scheduler.WritePw(channel, pw);
      }
    }

    /** update_max_amp: sets the ceiling of the first channel with the given name, if any. */
    method UpdateMaxAmp(channel: Channel, maxAmp: uint32)
      requires Valid()
      modifies this`channels
      ensures Valid()
      ensures channels == Limited(old(channels), MaxAmplitude, channel.name, maxAmp)
    {
      UpdateLimit(channel, MaxAmplitude, maxAmp);
    }

    /** update_max_pw: sets the pulse-width ceiling of the first channel with the given name, if any. */
    method UpdateMaxPw(channel: Channel, maxPw: uint32)
      requires Valid()
      modifies this`channels
      ensures Valid()
      ensures channels == Limited(old(channels), MaxPulseWidth, channel.name, maxPw)
    {
      UpdateLimit(channel, MaxPulseWidth, maxPw);
    }

    /** The search loop shared by update_max_amp and update_max_pw. */
    method UpdateLimit(channel: Channel, l: Limit, v: uint32)
      requires Valid()
      modifies this`channels
      ensures Valid()
      ensures channels == Limited(old(channels), l, channel.name, v)
    {
      var i := 0;
      while i < |channels|
        invariant 0 <= i <= |channels|
        invariant channels == old(channels)
        invariant forall j :: 0 <= j < i ==> channels[j].name != channel.name
      {
        if channels[i].name == channel.name {
          assert FirstIndex(ChannelNames(channels), channel.name) == Some(i);
          channels := channels[i := WithLimit(channels[i], l, v)];
          return;
        }
        i := i + 1;
      }
      assert channel.name !in ChannelNames(channels);
    }

    /**
     * update: when enabled, snapshots, for every attached event index i, the staged
     * amplitude and pulse width of channel i and channel i's ceilings, then lets the
     * scheduler send its commands and returns the scheduler's result.
     */
    method Update(sendOutcomes: seq<bool>) returns (ok: bool, commands: seq<Command>)
      requires Valid()
      requires |sendOutcomes| == |scheduler.events|
      requires enabled ==> |scheduler.events| <= numEvents
      modifies amplitudes, pulsewidths, maxAmplitudes, maxPulsewidths
      ensures !enabled ==> !ok && commands == []
      ensures !enabled ==> unchanged(amplitudes) && unchanged(pulsewidths)
      ensures !enabled ==> unchanged(maxAmplitudes) && unchanged(maxPulsewidths)
      ensures enabled ==> forall i :: 0 <= i < |scheduler.events| ==>
                amplitudes[i] == ValueOf(scheduler.events, Amplitude, channels[i].name) && pulsewidths[i] == ValueOf(scheduler.events, PulseWidth, channels[i].name) &&
                maxAmplitudes[i] == channels[i].maxAmplitude && maxPulsewidths[i] == channels[i].maxPulseWidth
      ensures enabled ==> forall i :: |scheduler.events| <= i < numEvents ==>
                amplitudes[i] == old(amplitudes[i]) && pulsewidths[i] == old(pulsewidths[i]) &&
                maxAmplitudes[i] == old(maxAmplitudes[i]) && maxPulsewidths[i] == old(maxPulsewidths[i])
      ensures enabled ==> (ok <==> AllSucceed(sendOutcomes))
      ensures enabled ==> |commands| == |scheduler.events| && forall i :: 0 <= i < |scheduler.events| ==>
                commands[i] == Command(i, scheduler.events[i].amplitude, scheduler.events[i].pulseWidth)
    {
      if !IsEnabled() {
        return false, [];
      }
      Snapshot();
      ok, commands := scheduler.Update(sendOutcomes);
    }

    /**
     * The locked part of update: for every attached event index i, the staged amplitude
     * and pulse width of channel i and channel i's ceilings go to slot i of the arrays.
     */
    method Snapshot()
      requires Valid()
      requires |scheduler.events| <= numEvents
      modifies amplitudes, pulsewidths, maxAmplitudes, maxPulsewidths
      ensures forall i :: 0 <= i < |scheduler.events| ==>
                amplitudes[i] == ValueOf(scheduler.events, Amplitude, channels[i].name) && pulsewidths[i] == ValueOf(scheduler.events, PulseWidth, channels[i].name) &&
                maxAmplitudes[i] == channels[i].maxAmplitude && maxPulsewidths[i] == channels[i].maxPulseWidth
      ensures forall i :: |scheduler.events| <= i < numEvents ==>
                amplitudes[i] == old(amplitudes[i]) && pulsewidths[i] == old(pulsewidths[i]) &&
                maxAmplitudes[i] == old(maxAmplitudes[i]) && maxPulsewidths[i] == old(maxPulsewidths[i])
    {
      var i := 0;
      while i < scheduler.GetNumEvents()
        invariant 0 <= i <= |scheduler.events|
        invariant forall j :: 0 <= j < i ==>
                    amplitudes[j] == ValueOf(scheduler.events, Amplitude, channels[j].name) &&
                    pulsewidths[j] == ValueOf(scheduler.events, PulseWidth, channels[j].name) &&
                    maxAmplitudes[j] == channels[j].maxAmplitude && maxPulsewidths[j] == channels[j].maxPulseWidth
        invariant forall j :: i <= j < numEvents ==>
                    amplitudes[j] == old(amplitudes[j]) && pulsewidths[j] == old(pulsewidths[j]) &&
                    maxAmplitudes[j] == old(maxAmplitudes[j]) && maxPulsewidths[j] == old(maxPulsewidths[j])
      {
        amplitudes[i] := ValueOf(scheduler.events, Amplitude, channels[i].name);
        pulsewidths[i] := ValueOf(scheduler.events, PulseWidth, channels[i].name);
        maxAmplitudes[i] := channels[i].maxAmplitude;
        maxPulsewidths[i] := channels[i].maxPulseWidth;
        i := i + 1;
      }
    }

    /**
     * create_scheduler (with the period already converted to `duration`): when enabled,
     * sends the creation request, then takes byte 0 of the reply's data as the scheduler
     * id, whatever the send's outcome; the result is the send's outcome.
     */
    method CreateScheduler(syncMsg: byte, duration: uint32, sendSucceeds: bool, reply: seq<byte>)
      returns (ok: bool)
      requires Valid()
      requires enabled ==> |reply| >= 1
      modifies scheduler`syncChar, scheduler`id
      ensures Valid()
      ensures !enabled ==> !ok && scheduler.syncChar == old(scheduler.syncChar) && scheduler.id == old(scheduler.id)
      ensures enabled ==> ok == sendSucceeds && scheduler.syncChar == syncMsg && scheduler.GetId() == reply[0]
    {
      if IsEnabled() {
        var success := scheduler.CreateScheduler(syncMsg, duration, sendSucceeds);
        scheduler.SetId(reply[0]);
        return success;
      } else {
        return false;
      }
    }

    /** add_event: when enabled, asks the scheduler to add an event for the channel. */
    method AddEvent(channel: Channel, eventType: byte, sendSucceeds: bool) returns (ok: bool)
      requires Valid()
      modifies scheduler`events
      ensures Valid()
      ensures !enabled ==> !ok && scheduler.events == old(scheduler.events)
      ensures enabled ==> ok == sendSucceeds && scheduler.events == old(scheduler.events) + [AddedEvent(channel, eventType)]
    {
      if IsEnabled() {
        // The type is passed where the scheduler expects `is_virtual_`.
        ok := scheduler.AddEvent(channel, eventType != 0, sendSucceeds);
      } else {
        ok := false;
      }
    }

    /**
     * add_events: add_event for each channel in order, stopping at the first failure;
     * the events added before it stay added.
     */
    method AddEvents(channelList: seq<Channel>, eventType: byte, sendOutcomes: seq<bool>)
      returns (ok: bool, attempted: nat)
      requires Valid()
      requires |sendOutcomes| == |channelList|
      modifies scheduler`events
      ensures Valid()
      ensures !enabled ==> !ok && attempted == 0 && scheduler.events == old(scheduler.events)
      ensures enabled ==> StopsAtFirstFailure(sendOutcomes, attempted, ok)
      ensures enabled ==> scheduler.events == old(scheduler.events) + AddedEvents(channelList[..attempted], eventType)
    {
      if !IsEnabled() {
        return false, 0;
      }
      var i := 0;
      while i < |channelList|
        invariant 0 <= i <= |channelList|
        invariant AllSucceed(sendOutcomes[..i])
        invariant scheduler.events == old(scheduler.events) + AddedEvents(channelList[..i], eventType)
      {
        var added := AddEvent(channelList[i], eventType, sendOutcomes[i]);
        assert AddedEvents(channelList[..i + 1], eventType)
            == AddedEvents(channelList[..i], eventType) + [AddedEvent(channelList[i], eventType)];
        if !added {
          return false, i + 1;
        }
        assert sendOutcomes[..i + 1] == sendOutcomes[..i] + [sendOutcomes[i]];
        i := i + 1;
      }
      assert sendOutcomes[..i] == sendOutcomes;
      return true, |channelList|;
    }

    function GetChannels(): (r: seq<Channel>)
      reads this
      ensures r == channels
    {
      channels
    }

    function IsEnabled(): (r: bool)
      reads this
      ensures r == enabled
    {
      enabled
    }

    function GetName(): (r: string)
      reads this
      ensures r == name
    {
      name
    }
  }
}
