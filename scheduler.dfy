/**
 * The stimulator board's scheduler: a device-side execution context with an id,
 * an ordered list of events, an enabled flag and a sync byte. Each transmission to
 * the board is reduced to its outcome (`sendSucceeds`, `sendOutcomes`), given by the
 * caller; what the model keeps is the state each operation leaves behind and the
 * commands it issues.
 */
module Schedulers {
  import opened Utility
  import opened Records

  /** The two staged values of an event that set_amp and write_pw change. */
  datatype Setting = Amplitude | PulseWidth

  function SettingOf(e: Event, s: Setting): uint32
  {
    match s
    case Amplitude => e.amplitude
    case PulseWidth => e.pulseWidth
  }

  function WithSetting(e: Event, s: Setting, v: uint32): Event
  {
    match s
    case Amplitude => e.(amplitude := v)
    case PulseWidth => e.(pulseWidth := v)
  }

  /** The value of `s` staged for the first event bound to channel `name`, or 0 when none is. */
  function ValueOf(events: seq<Event>, s: Setting, name: string): uint32
  {
    match FirstIndex(EventNames(events), name)
    case None => 0
    case Some(i) => SettingOf(events[i], s)
  }

  /** `events` after staging `v` as setting `s` of the first event bound to channel `name`. */
  function Staged(events: seq<Event>, s: Setting, name: string, v: uint32): (r: seq<Event>)
    ensures |r| == |events|
    ensures EventNames(r) == EventNames(events)
    ensures name !in EventNames(events) ==> r == events
    ensures forall i :: 0 <= i < |events| && (events[i].channelName != name || exists j :: 0 <= j < i && events[j].channelName == name)
              ==> r[i] == events[i]
  {
    match FirstIndex(EventNames(events), name)
    case None => events
    case Some(i) => events[i := WithSetting(events[i], s, v)]
  }

  /** After staging a value for a channel that has an event, reading it back gives that value. */
  lemma StagedThenRead(events: seq<Event>, s: Setting, name: string, v: uint32)
    requires name in EventNames(events)
    ensures ValueOf(Staged(events, s, name, v), s, name) == v
  {
    var r := Staged(events, s, name, v);
    assert FirstIndex(EventNames(r), name) == FirstIndex(EventNames(events), name);
  }

  /** Staging one setting of one channel leaves every other (setting, channel) reading as it was. */
  lemma StagedKeepsOthers(events: seq<Event>, s: Setting, name: string, v: uint32,
                          s': Setting, name': string)
    requires s' != s || name' != name
    ensures ValueOf(Staged(events, s, name, v), s', name') == ValueOf(events, s', name')
  {
    var r := Staged(events, s, name, v);
    assert FirstIndex(EventNames(r), name') == FirstIndex(EventNames(events), name');
  }

  /** The reading for a channel comes from its first event: later events bound to it are never read. */
  lemma ValueOfIsFirstMatch(events: seq<Event>, s: Setting, name: string, i: nat)
    requires i < |events| && events[i].channelName == name
    requires forall j :: 0 <= j < i ==> events[j].channelName != name
    ensures ValueOf(events, s, name) == SettingOf(events[i], s)
  {
    var names := EventNames(events);
    assert names[i] == name;
    assert forall j :: 0 <= j < i ==> names[j] != name;
  }

  /** The event add_event appends: bound to the channel, amplitude and pulse width still 0. */
  function NewEvent(channel: Channel, isVirtual: bool, eventType: byte): (e: Event)
    ensures e.channelName == channel.name && e.eventType == eventType && e.isVirtual == isVirtual
  {
    Event(channel.name, 0, 0, eventType, isVirtual)
  }

  /** One amplitude/pulse-width command sent to the board for the event at `eventIndex`. */
  datatype Command = Command(eventIndex: nat, amplitude: uint32, pulseWidth: uint32)

  class Scheduler {
    /** The id the board assigned to this scheduler. */
    var id: byte
    /** The attached events, in the order they were added (the board's registration order). */
    var events: seq<Event>
    var enabled: bool
    /** The byte that tells the board to start running this scheduler's events. */
    var syncChar: byte

    constructor ()
      ensures events == [] && !enabled
    {
      id := 0;
      events := [];
      enabled := false;
      syncChar := 0;
    }

    /** create_scheduler: registers the sync byte and sends the creation request. */
    method CreateScheduler(syncMsg: byte, duration: uint32, sendSucceeds: bool) returns (ok: bool)
      modifies this`syncChar
      ensures syncChar == syncMsg
      ensures ok == sendSucceeds
      ensures id == old(id) && events == old(events) && enabled == old(enabled)
    {
      syncChar := syncMsg;
      ok := sendSucceeds;
    }

    /** add_event: sends the add-event request and appends one event; earlier events keep their place. */
    method AddEvent(channel: Channel, isVirtual: bool, sendSucceeds: bool, eventType: byte := STIM_EVENT)
      returns (ok: bool)
      modifies this`events
      ensures |events| == |old(events)| + 1
      ensures events[..|old(events)|] == old(events)
      ensures events[|old(events)|] == NewEvent(channel, isVirtual, eventType)
      ensures ok == sendSucceeds
      ensures id == old(id) && enabled == old(enabled) && syncChar == old(syncChar)
    {
      events := events + [NewEvent(channel, isVirtual, eventType)];
      ok := sendSucceeds;
    }

    method Enable()
      modifies this`enabled
      ensures IsEnabled()
      ensures id == old(id) && events == old(events) && syncChar == old(syncChar)
    {
      enabled := true;
    }

    method Disable()
      modifies this`enabled
      ensures !IsEnabled()
      ensures id == old(id) && events == old(events) && syncChar == old(syncChar)
    {
      enabled := false;
    }

    function IsEnabled(): (r: bool)
      reads this
      ensures r == enabled
    {
      enabled
    }

    function GetId(): (r: byte)
      reads this
      ensures r == id
    {
      id
    }

    method SetId(schedId: byte)
      modifies this`id
      ensures GetId() == schedId
      ensures events == old(events) && enabled == old(enabled) && syncChar == old(syncChar)
    {
      id := schedId;
    }

    /** set_amp: stages an amplitude on the first event bound to the channel. */
    method SetAmp(channel: Channel, amplitude: uint32)
      modifies this`events
      ensures events == Staged(old(events), Amplitude, channel.name, amplitude)
      ensures channel.name in EventNames(old(events)) ==> GetAmp(channel) == amplitude
      ensures forall c: Channel :: GetPw(c) == old(GetPw(c))
      ensures forall c: Channel :: c.name != channel.name ==> GetAmp(c) == old(GetAmp(c))
      ensures id == old(id) && enabled == old(enabled) && syncChar == old(syncChar)
    {
      StagedThenReadAll(events, Amplitude, channel.name, amplitude);
      events := Staged(events, Amplitude, channel.name, amplitude);
    }

    /** get_amp: the amplitude of the first event bound to the channel, 0 when none is. */
    function GetAmp(channel: Channel): (a: uint32)
      reads this
      ensures channel.name !in EventNames(events) ==> a == 0
      ensures channel.name in EventNames(events) ==>
                exists i :: 0 <= i < |events| && events[i].channelName == channel.name && a == events[i].amplitude
    {
      ValueOf(events, Amplitude, channel.name)
    }

    /** write_pw: stages a pulse width on the first event bound to the channel. */
    method WritePw(channel: Channel, pw: uint32)
      modifies this`events
      ensures events == Staged(old(events), PulseWidth, channel.name, pw)
      ensures channel.name in EventNames(old(events)) ==> GetPw(channel) == pw
      ensures forall c: Channel :: GetAmp(c) == old(GetAmp(c))
      ensures forall c: Channel :: c.name != channel.name ==> GetPw(c) == old(GetPw(c))
      ensures id == old(id) && enabled == old(enabled) && syncChar == old(syncChar)
    {
      StagedThenReadAll(events, PulseWidth, channel.name, pw);
      events := Staged(events, PulseWidth, channel.name, pw);
    }

    /** get_pw: the pulse width of the first event bound to the channel, 0 when none is. */
    function GetPw(channel: Channel): (p: uint32)
      reads this
      ensures channel.name !in EventNames(events) ==> p == 0
      ensures channel.name in EventNames(events) ==>
                exists i :: 0 <= i < |events| && events[i].channelName == channel.name && p == events[i].pulseWidth
    {
      ValueOf(events, PulseWidth, channel.name)
    }

    function GetEvents(): (r: seq<Event>)
      reads this
      ensures r == events
    {
      events
    }

    function GetNumEvents(): (n: nat)
      reads this
      ensures n == |GetEvents()|
    {
      |events|
    }

    /** halt_scheduler: sends the halt request; a scheduler the board halted is no longer enabled. */
    method HaltScheduler(sendSucceeds: bool) returns (ok: bool)
      modifies this`enabled
      ensures ok == sendSucceeds
      ensures enabled == (old(enabled) && !sendSucceeds)
      ensures id == old(id) && events == old(events) && syncChar == old(syncChar)
    {
      ok := sendSucceeds;
      if ok {
        enabled := false;
      }
    }

    /** send_sync_msg: sends the sync byte; once the board has it, the scheduler is enabled. */
    method SendSyncMsg(sendSucceeds: bool) returns (ok: bool)
      modifies this`enabled
      ensures ok == sendSucceeds
      ensures enabled == (old(enabled) || sendSucceeds)
      ensures id == old(id) && events == old(events) && syncChar == old(syncChar)
    {
      ok := sendSucceeds;
      if ok {
        enabled := true;
      }
    }

    /**
     * update: one command per attached event, in order, carrying that event's staged
     * amplitude and pulse width. A failed send does not stop the later ones; the
     * result is true only when every send succeeded.
     */
    method Update(sendOutcomes: seq<bool>) returns (ok: bool, commands: seq<Command>)
      requires |sendOutcomes| == |events|
      ensures |commands| == |events|
      ensures forall i :: 0 <= i < |events| ==>
                commands[i] == Command(i, events[i].amplitude, events[i].pulseWidth)
      ensures ok <==> AllSucceed(sendOutcomes)
    {
      ok := true;
      commands := [];
      var i := 0;
      while i < |events|
        invariant 0 <= i <= |events|
        invariant |commands| == i
        invariant forall j :: 0 <= j < i ==>
                    commands[j] == Command(j, events[j].amplitude, events[j].pulseWidth)
        invariant ok <==> AllSucceed(sendOutcomes[..i])
      {
        commands := commands + [Command(i, events[i].amplitude, events[i].pulseWidth)];
        if !sendOutcomes[i] {
          ok := false;
        }
        assert sendOutcomes[..i + 1] == sendOutcomes[..i] + [sendOutcomes[i]];
        i := i + 1;
      }
      assert sendOutcomes[..i] == sendOutcomes;
    }
  }

  /**
   * A client of the scheduler: an event added for a channel, amplitude 120 and pulse
   * width 200 staged on it, then one update sends exactly one command carrying them.
   */
  method StageThenUpdateScenario(quad: Channel, sendSucceeds: bool)
  {
    var s := new Scheduler();
    var added := s.AddEvent(quad, false, true);
    assert EventNames(s.events) == [quad.name];
    s.SetAmp(quad, 120);
    s.WritePw(quad, 200);
    assert FirstIndex(EventNames(s.events), quad.name) == Some(0);
    var ok, commands := s.Update([sendSucceeds]);
    assert commands == [Command(0, 120, 200)];
    assert [sendSucceeds][0] == sendSucceeds;
    assert ok == sendSucceeds;
  }

  /** Staging a setting reads back as staged, and leaves every other reading unchanged. */
  lemma StagedThenReadAll(events: seq<Event>, s: Setting, name: string, v: uint32)
    ensures name in EventNames(events) ==> ValueOf(Staged(events, s, name, v), s, name) == v
    ensures forall s': Setting, name': string :: s' != s || name' != name ==>
              ValueOf(Staged(events, s, name, v), s', name') == ValueOf(events, s', name')
  {
    if name in EventNames(events) {
      StagedThenRead(events, s, name, v);
    }
    forall s': Setting, name': string | s' != s || name' != name
      ensures ValueOf(Staged(events, s, name, v), s', name') == ValueOf(events, s', name')
    {
      StagedKeepsOthers(events, s, name, v, s', name');
    }
  }
}
