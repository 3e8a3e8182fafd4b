/**
 * `/youtube play` and `/youtube stop`: the per-guild voice session. The
 * voice library's connection table (`getVoiceConnection`,
 * `joinVoiceChannel`, `destroy`) and the bot's `client.audio` registry are
 * maps keyed by guild id; players and timers are handles whose stop and
 * close calls set flags. Discord replies, the audio stream, the ffmpeg
 * spawn and the library's effects are recorded, in order, in an event log.
 */
module VoiceSession {
  import opened Wrappers
  import opened FfmpegPlan

  type GuildId = string
  type ChannelId = string
  /** Identifies one slash-command interaction; its replies edit the same message. */
  type RequestId = nat
  type PlayerId = nat
  type TimerId = nat

  /**
   * A supplied `channel` option: its id, and whether its type is one of the
   * two the option accepts (a voice or a stage channel).
   */
  datatype Channel = Channel(id: ChannelId, voiceBased: bool)

  /** How `play` settles on a channel: join one, find none, or throw on an option of another type. */
  datatype ChannelChoice = Join(id: ChannelId) | NoChannel | WrongType

  /** A Ready handler registered by one play request: the interaction it answers and the player it subscribes. */
  datatype Listener = Listener(request: RequestId, player: PlayerId)

  /** A voice connection: the channel it joined, its Ready handlers in registration order, the player it is subscribed to. */
  datatype Connection = Connection(channelId: ChannelId, listeners: seq<Listener>, subscribed: Option<PlayerId>)

  /** An entry of `client.audio`; both handles may be missing. */
  datatype AudioData = AudioData(player: Option<PlayerId>, timeout: Option<TimerId>)

  /** The texts the two commands reply with. */
  datatype Text =
    | NotInGuild          // "You must use this command in a guild!"
    | NoVoiceChannel      // "You must specify a voice channel, or be in a voice channel ..."
    | AttemptingToPlay    // "Attempting to play audio..."
    | PlayingAudio        // "Playing audio..."
    | NoAudioPlaying      // "There is no audio playing in this guild!"
    | StoppingAudio       // "Stopping any audio and leaving voice..."

  datatype Event =
    | Replied(request: RequestId, text: Text)
    | StreamOpened(request: RequestId, url: string)
    | Spawned(request: RequestId, args: seq<string>, stdio: seq<Stdio>)
    | Joined(guild: GuildId, channel: ChannelId)
    | Subscribed(guild: GuildId, player: PlayerId)
    | Played(player: PlayerId, request: RequestId)
    | Destroyed(guild: GuildId)
    | EntryDeleted(guild: GuildId)
    | PlayerStopped(player: PlayerId)
    | TimerClosed(timer: TimerId)

  /** The ffmpeg arguments `play` spawns with: raw PCM, 48000 Hz, two channels, from pipe 0 to pipe 1. */
  const PlayArgs: seq<string> :=
    ["-analyzeduration", "0", "-loglevel", "0", "-i", "pipe:0",
     "-f", "s16le", "-ar", "48000", "-ac", "2", "pipe:1"]
  const PlayStdio: seq<Stdio> := [Pipe, Pipe, Inherit]

  /** The transcode reads descriptor 0 and writes descriptor 1, and both are pipes. */
  lemma PlayArgsWired()
    ensures PipesNamed(PlayArgs) == {0, 1}
    ensures PipesWired(PlayArgs, PlayStdio)
  {
    var a := PlayArgs;
    assert PipeIndex(a[5]) == Some(0) && PipeIndex(a[12]) == Some(1);
    forall k | 0 <= k < |a| && k !in {5, 12} ensures PipeIndex(a[k]).None? {
      assert |a[k]| != 6;
    }
    assert (set k | k in {5, 12} :: PipeIndex(a[k]).value) == {0, 1};
    PipesNamedAt(a, {5, 12}, {0, 1});
  }

  /**
   * The channel `play` joins. `getChannel` restricted to voice and stage
   * channels throws on a supplied option of any other type; a supplied
   * option of those types is always voice-based and wins; without one, the
   * caller's current voice channel is used, if any.
   */
  function ChooseChannel(option: Option<Channel>, userChannel: Option<ChannelId>): (r: ChannelChoice)
    ensures r == WrongType <==> option.Some? && !option.value.voiceBased
    ensures r == NoChannel <==> option.None? && userChannel.None?
    ensures r.Join? ==> if option.Some? then r.id == option.value.id else Some(r.id) == userChannel
  {
    match option
    case Some(c) => if c.voiceBased then Join(c.id) else WrongType
    case None => if userChannel.Some? then Join(userChannel.value) else NoChannel
  }

  /** Without the option, the caller's channel decides alone; with a usable option, the caller's channel plays no part. */
  lemma ChooseChannelFallsBack(option: Option<Channel>, userChannel: Option<ChannelId>, otherChannel: Option<ChannelId>)
    ensures option.None? && userChannel.Some? ==> ChooseChannel(option, userChannel) == Join(userChannel.value)
    ensures option.Some? ==> ChooseChannel(option, userChannel) == ChooseChannel(option, otherChannel)
  {
  }

  /** What one Ready handler does: reply, subscribe the connection to its player, play its resource. */
  function ReadyStep(g: GuildId, l: Listener): seq<Event>
  {
    [Replied(l.request, PlayingAudio), Subscribed(g, l.player), Played(l.player, l.request)]
  }

  /** The events of a Ready event on a connection with these handlers, run in registration order. */
  function ReadyEvents(g: GuildId, ls: seq<Listener>): seq<Event>
  {
    if ls == [] then [] else ReadyEvents(g, ls[..|ls| - 1]) + ReadyStep(g, ls[|ls| - 1])
  }

  /** Each handler contributes its three steps, in handler order: its reply, its subscription, its play. */
  lemma {:induction false} ReadyEventsShape(g: GuildId, ls: seq<Listener>)
    ensures |ReadyEvents(g, ls)| == 3 * |ls|
    ensures forall k :: 0 <= k < |ls| ==>
      && ReadyEvents(g, ls)[3 * k] == Replied(ls[k].request, PlayingAudio)
      && ReadyEvents(g, ls)[3 * k + 1] == Subscribed(g, ls[k].player)
      && ReadyEvents(g, ls)[3 * k + 2] == Played(ls[k].player, ls[k].request)
  {
    if ls != [] {
      var init := ls[..|ls| - 1];
      ReadyEventsShape(g, init);
      var r := ReadyEvents(g, ls);
      assert r == ReadyEvents(g, init) + ReadyStep(g, ls[|ls| - 1]);
      forall k | 0 <= k < |init|
        ensures r[3 * k] == Replied(ls[k].request, PlayingAudio)
        ensures r[3 * k + 1] == Subscribed(g, ls[k].player)
        ensures r[3 * k + 2] == Played(ls[k].player, ls[k].request)
      {
        assert init[k] == ls[k];
      }
    }
  }

  /**
   * The subscription a Ready event leaves is the one its last Subscribed
   * event made, and the earlier one when it made none.
   */
  lemma SubscribedIsLastSubscribe(g: GuildId, ls: seq<Listener>, before: Option<PlayerId>)
    ensures var r := ReadyEvents(g, ls);
      (forall i :: 0 <= i < |r| ==> !r[i].Subscribed?) ==> SubscribedAfter(ls, before) == before
    ensures var r := ReadyEvents(g, ls);
      forall i :: 0 <= i < |r| && r[i].Subscribed? && (forall j :: i < j < |r| ==> !r[j].Subscribed?) ==>
        SubscribedAfter(ls, before) == Some(r[i].player)
  {
    ReadyEventsShape(g, ls);
    var r := ReadyEvents(g, ls);
    if ls != [] {
      var last := 3 * (|ls| - 1) + 1;
      assert r[last].Subscribed?;
      forall i | 0 <= i < |r| && r[i].Subscribed? && (forall j :: i < j < |r| ==> !r[j].Subscribed?)
        ensures SubscribedAfter(ls, before) == Some(r[i].player)
      {
        var k := i / 3;
        assert i == 3 * k || i == 3 * k + 1 || i == 3 * k + 2;
        assert i == last;
      }
    }
  }

  /** The player a connection is subscribed to after its handlers ran: the last handler's, if any. */
  function SubscribedAfter(ls: seq<Listener>, before: Option<PlayerId>): Option<PlayerId>
  {
    if ls == [] then before else Some(ls[|ls| - 1].player)
  }

  /** The library effects of `stop` on a guild that has a connection, given its registry entry, in order. */
  function StopEvents(g: GuildId, entry: Option<AudioData>): seq<Event>
  {
    if entry.None? then [Destroyed(g)]
    else
      var d := entry.value;
      var deleted := [Destroyed(g)] + [EntryDeleted(g)];
      var stopped := if d.player.Some? then deleted + [PlayerStopped(d.player.value)] else deleted;
      if d.timeout.Some? then stopped + [TimerClosed(d.timeout.value)] else stopped
  }

  /** The events after the entry's deletion: the player stop and the timer close, each when present. */
  function ReleaseEvents(d: AudioData): (r: seq<Event>)
    ensures forall e :: e in r ==> e.PlayerStopped? || e.TimerClosed?
  {
    (if d.player.Some? then [PlayerStopped(d.player.value)] else [])
    + (if d.timeout.Some? then [TimerClosed(d.timeout.value)] else [])
  }

  lemma StopEventsWithEntry(g: GuildId, d: AudioData)
    ensures StopEvents(g, Some(d)) == [Destroyed(g), EntryDeleted(g)] + ReleaseEvents(d)
  {
  }

  /** The connection is destroyed exactly once, first; without an entry nothing else happens. */
  lemma StopDestroysOnce(g: GuildId, entry: Option<AudioData>)
    ensures StopEvents(g, entry)[0] == Destroyed(g)
    ensures forall e :: e in StopEvents(g, entry)[1..] ==> !e.Destroyed?
    ensures entry.None? ==> StopEvents(g, entry) == [Destroyed(g)]
  {
    if entry.Some? {
      StopEventsWithEntry(g, entry.value);
      assert StopEvents(g, entry)[1..] == [EntryDeleted(g)] + ReleaseEvents(entry.value);
    }
  }

  /** With an entry, it is deleted right after the destroy, before any player stop or timer close. */
  lemma StopDeletesEntryFirst(g: GuildId, entry: Option<AudioData>)
    requires entry.Some?
    ensures |StopEvents(g, entry)| >= 2 && StopEvents(g, entry)[1] == EntryDeleted(g)
    ensures forall i :: 0 <= i < |StopEvents(g, entry)| && StopEvents(g, entry)[i].EntryDeleted? ==> i == 1
    ensures forall i :: 0 <= i < |StopEvents(g, entry)| && (StopEvents(g, entry)[i].PlayerStopped? || StopEvents(g, entry)[i].TimerClosed?) ==> i >= 2
  {
    var tail := ReleaseEvents(entry.value);
    StopEventsWithEntry(g, entry.value);
    var r := StopEvents(g, entry);
    forall i | 2 <= i < |r| ensures !r[i].EntryDeleted? {
      assert r[i] == tail[i - 2];
      assert tail[i - 2] in tail;
    }
  }

  /** Exactly the entry's player is stopped and exactly its timer closed; a missing one is skipped. */
  lemma StopReleasesHandles(g: GuildId, entry: Option<AudioData>)
    ensures forall e :: e in StopEvents(g, entry) && e.PlayerStopped? ==> entry.Some? && entry.value.player == Some(e.player)
    ensures forall e :: e in StopEvents(g, entry) && e.TimerClosed? ==> entry.Some? && entry.value.timeout == Some(e.timer)
    ensures entry.Some? && entry.value.player.Some? ==> PlayerStopped(entry.value.player.value) in StopEvents(g, entry)
    ensures entry.Some? && entry.value.timeout.Some? ==> TimerClosed(entry.value.timeout.value) in StopEvents(g, entry)
  {
    if entry.Some? {
      StopEventsWithEntry(g, entry.value);
    }
  }

  /**
   * Runs the Ready handlers of a connection in registration order: each
   * replies, subscribes the connection to its player and plays its resource.
   * Gives the events and the player left subscribed.
   */
  method RunReadyHandlers(g: GuildId, ls: seq<Listener>, before: Option<PlayerId>)
    returns (events: seq<Event>, subscribed: Option<PlayerId>)
    ensures events == ReadyEvents(g, ls)
    ensures subscribed == SubscribedAfter(ls, before)
  {
    events, subscribed := [], before;
    for i := 0 to |ls|
      invariant events == ReadyEvents(g, ls[..i])
      invariant subscribed == if i == 0 then before else Some(ls[i - 1].player)
    {
      assert ls[..i + 1][..i] == ls[..i];
      subscribed := Some(ls[i].player);
      events := events + ReadyStep(g, ls[i]);
    }
    assert ls[..|ls|] == ls;
  }

  /** The registry entry of a guild, if any. */
  function EntryOf(audio: map<GuildId, AudioData>, g: GuildId): Option<AudioData>
  {
    if g in audio then Some(audio[g]) else None
  }

  /** The players `stop` calls `stop()` on: the entry's, when it has one. */
  function PlayersOf(entry: Option<AudioData>): set<PlayerId>
  {
    if entry.Some? && entry.value.player.Some? then {entry.value.player.value} else {}
  }

  /** The timers `stop` calls `close()` on: the entry's, when it has one. */
  function TimersOf(entry: Option<AudioData>): set<TimerId>
  {
    if entry.Some? && entry.value.timeout.Some? then {entry.value.timeout.value} else {}
  }

  /**
   * The voice state both commands share: the library's connections, the
   * bot's registry, the stop/close flags of the handles and the event log.
   */
  class VoiceState {
    var connections: map<GuildId, Connection>
    var audio: map<GuildId, AudioData>
    var stopped: set<PlayerId>
    var closed: set<TimerId>
    var log: seq<Event>
    /** The next fresh player handle. */
    var nextPlayer: PlayerId

    /** Every connection was opened by a join on its guild and channel: none exists without one. */
    predicate Valid()
      reads this
    {
      forall g :: g in connections ==> Joined(g, connections[g].channelId) in log
    }

    constructor(audio0: map<GuildId, AudioData>)
      ensures Valid()
      ensures connections == map[] && audio == audio0 && log == []
      ensures stopped == {} && closed == {} && nextPlayer == 0
    {
      connections := map[];
      audio := audio0;
      stopped := {};
      closed := {};
      log := [];
      nextPlayer := 0;
    }

    /**
     * `/youtube play`: without a guild, or without a channel to join, only
     * the error reply. Otherwise the stream is opened, the reply sent, ffmpeg
     * spawned with the fixed plan, a fresh player created, the guild's
     * connection reused or joined on the chosen channel, and one Ready
     * handler appended to it. The registry and the handle flags are never
     * touched.
     */
    method Play(request: RequestId, guild: Option<GuildId>, option: Option<Channel>,
                userChannel: Option<ChannelId>, url: string)
      returns (threw: bool)
      requires Valid()
      modifies this
      ensures Valid()
      ensures audio == old(audio) && stopped == old(stopped) && closed == old(closed)
      ensures threw <==> guild.Some? && ChooseChannel(option, userChannel) == WrongType
      ensures guild.None? ==>
        && connections == old(connections) && nextPlayer == old(nextPlayer)
        && log == old(log) + [Replied(request, NotInGuild)]
      ensures threw ==> connections == old(connections) && nextPlayer == old(nextPlayer) && log == old(log)
      ensures guild.Some? && ChooseChannel(option, userChannel) == NoChannel ==>
        && connections == old(connections) && nextPlayer == old(nextPlayer)
        && log == old(log) + [Replied(request, NoVoiceChannel)]
      ensures guild.Some? && ChooseChannel(option, userChannel).Join? ==>
        var g, ch := guild.value, ChooseChannel(option, userChannel).id;
        var c := if g in old(connections) then old(connections)[g] else Connection(ch, [], None);
        && nextPlayer == old(nextPlayer) + 1
        && connections == old(connections)[g := c.(listeners := c.listeners + [Listener(request, old(nextPlayer))])]
        && log == old(log)
             + [StreamOpened(request, url), Replied(request, AttemptingToPlay), Spawned(request, PlayArgs, PlayStdio)]
             + (if g in old(connections) then [] else [Joined(g, ch)])
    {
      threw := false;
      if guild.None? {
        log := log + [Replied(request, NotInGuild)];
        return;
      }
      var g := guild.value;
      if option.Some? && !option.value.voiceBased {
        // `getChannel` rejects an option outside the allowed channel types
        threw := true;
        return;
      }
      var channel := option;
      if channel.None? || !channel.value.voiceBased {
        if userChannel.None? {
          log := log + [Replied(request, NoVoiceChannel)];
          return;
        }
        channel := Some(Channel(userChannel.value, true));
      }
      var ch := channel.value.id;
      log := log + [StreamOpened(request, url), Replied(request, AttemptingToPlay), Spawned(request, PlayArgs, PlayStdio)];
      var player := nextPlayer;
      nextPlayer := nextPlayer + 1;
      var connection: Connection;
      if g in connections {
        connection := connections[g];
      } else {
        connection := Connection(ch, [], None);
        log := log + [Joined(g, ch)];
      }
      connections := connections[g := connection.(listeners := connection.listeners + [Listener(request, player)])];
    }

    /**
     * The connection of guild `g` becomes Ready: every handler registered on
     * it runs, in registration order, each replying, subscribing the
     * connection to its player and playing its resource, so the last
     * handler's player stays subscribed.
     */
    method OnReady(g: GuildId)
      requires Valid() && g in connections
      modifies this
      ensures Valid()
      ensures audio == old(audio) && stopped == old(stopped) && closed == old(closed) && nextPlayer == old(nextPlayer)
      ensures log == old(log) + ReadyEvents(g, old(connections)[g].listeners)
      ensures connections == old(connections)[g := old(connections)[g].(subscribed :=
        SubscribedAfter(old(connections)[g].listeners, old(connections)[g].subscribed))]
    {
      var c := connections[g];
      var events, subscribed := RunReadyHandlers(g, c.listeners, c.subscribed);
      connections := connections[g := c.(subscribed := subscribed)];
      log := log + events;
    }

    /**
     * `/youtube stop`: without a guild or without a connection, only the
     * reply. Otherwise the connection is destroyed (the library forgets it),
     * and when the guild has a registry entry it is deleted first, then its
     * player is stopped and its timer closed when present. Other guilds keep
     * their connections and entries.
     */
    method Stop(request: RequestId, guild: Option<GuildId>)
      requires Valid()
      modifies this
      ensures Valid()
      ensures nextPlayer == old(nextPlayer)
      ensures guild.None? ==>
        && connections == old(connections) && audio == old(audio)
        && stopped == old(stopped) && closed == old(closed)
        && log == old(log) + [Replied(request, NotInGuild)]
      ensures guild.Some? && guild.value !in old(connections) ==>
        && connections == old(connections) && audio == old(audio)
        && stopped == old(stopped) && closed == old(closed)
        && log == old(log) + [Replied(request, NoAudioPlaying)]
      ensures guild.Some? && guild.value in old(connections) ==>
        Joined(guild.value, old(connections)[guild.value].channelId) in old(log)
      ensures guild.Some? && guild.value in old(connections) ==>
        var g := guild.value;
        var entry := EntryOf(old(audio), g);
        && connections == old(connections) - {g}
        && audio == old(audio) - {g}
        && stopped == old(stopped) + PlayersOf(entry)
        && closed == old(closed) + TimersOf(entry)
        && log == old(log) + [Replied(request, StoppingAudio)] + StopEvents(g, entry)
    {
      if guild.None? {
        log := log + [Replied(request, NotInGuild)];
        return;
      }
      var g := guild.value;
      if g !in connections {
        log := log + [Replied(request, NoAudioPlaying)];
        return;
      }
      log := log + [Replied(request, StoppingAudio)];
      connections := connections - {g};
      var events := [Destroyed(g)];
      if g in audio {
        var current := audio[g];
        audio := audio - {g};
        events := events + [EntryDeleted(g)];
        if current.player.Some? {
          stopped := stopped + {current.player.value};
          events := events + [PlayerStopped(current.player.value)];
        }
        if current.timeout.Some? {
          closed := closed + {current.timeout.value};
          events := events + [TimerClosed(current.timeout.value)];
        }
      }
      log := log + events;
    }
  }

  /** Two play requests in a guild without a connection join once; the second reuses the connection and adds a second handler. */
  method PlayTwice(s: VoiceState, g: GuildId, ch: ChannelId)
    requires s.Valid() && g !in s.connections
    modifies s
    ensures s.Valid()
    ensures |old(s.log)| <= |s.log|
    ensures g in s.connections && |s.connections[g].listeners| == 2 && s.connections[g].channelId == ch
    ensures multiset(s.log[|old(s.log)|..])[Joined(g, ch)] == 1
  {
    var _ := s.Play(0, Some(g), Some(Channel(ch, true)), None, "");
    var _ := s.Play(1, Some(g), None, Some(ch), "");
    var added := s.log[|old(s.log)|..];
    assert added == [StreamOpened(0, ""), Replied(0, AttemptingToPlay), Spawned(0, PlayArgs, PlayStdio), Joined(g, ch),
                     StreamOpened(1, ""), Replied(1, AttemptingToPlay), Spawned(1, PlayArgs, PlayStdio)];
  }
}
