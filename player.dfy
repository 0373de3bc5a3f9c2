/**
 * The part of a connected player that decides who sees whom: the set of
 * players it hides, the gate in front of showing itself to another player,
 * and a few client-setting flags.
 *
 * The calls a player makes into code outside this model (sending its
 * settings to the client, the entity-level spawn, despawning) are recorded
 * in order in the `calls` log of the player they are made on.
 */
module Players {
  import opened Php

  /** Game modes. */
  const SURVIVAL: int := 0
  const CREATIVE: int := 1
  const ADVENTURE: int := 2
  const SPECTATOR: int := 3
  const VIEW: int := SPECTATOR

  /** The raw unique id of a player: the binary form of its UUID. */
  type RawId = string

  /** A call into a collaborator, recorded on the player it was made on. */
  datatype Call =
    | SendSettings                  // the settings are sent to the client
    | SpawnedTo(viewer: Player)     // the entity-level spawn to viewer
    | DespawnedFrom(viewer: Player) // removed from viewer's world view

  /**
   * The hidden-players map after `self` hides `p`: unchanged when `p` is
   * `self`, otherwise `p` stored under its raw unique id.
   */
  function Hiding(hidden: map<RawId, Player>, self: Player, p: Player): (r: map<RawId, Player>)
    ensures p != self ==> p.rawUniqueId in r && r[p.rawUniqueId] == p
    ensures forall id | id != p.rawUniqueId :: (id in r) == (id in hidden)
    ensures forall id | id != p.rawUniqueId && id in hidden :: r[id] == hidden[id]
  {
    if p == self then hidden else hidden[p.rawUniqueId := p]
  }

  /** Hiding oneself leaves the map as it was. */
  lemma HidingSelf(hidden: map<RawId, Player>, self: Player)
    ensures Hiding(hidden, self, self) == hidden
  {
  }

  /**
   * The map is keyed by raw unique id, so hiding a player a second time, or
   * hiding another object with the same id, leaves one entry for that id.
   */
  lemma HidingTwice(hidden: map<RawId, Player>, self: Player, p: Player, q: Player)
    requires p != self && q != self && p.rawUniqueId == q.rawUniqueId
    ensures Hiding(Hiding(hidden, self, p), self, q) == Hiding(hidden, self, q)
    ensures Hiding(Hiding(hidden, self, p), self, p) == Hiding(hidden, self, p)
  {
  }

  class Player {
    const rawUniqueId: RawId

    var spawned: bool
    var loggedIn: bool
    /** The game mode; declared without a default, so `null` in this model until one is set. */
    var gamemode: Value
    var windowCnt: int
    /** Window id to inventory; inventories are handles here. */
    var windowIndex: map<int, int>
    var messageCounter: int
    var sendIndex: int
    var connected: bool
    var removeFormat: bool
    /** Players this one does not see, keyed by their raw unique id. */
    var hiddenPlayers: map<RawId, Player>
    /** Stored as given, without a cast. */
    var autoJump: Value
    var allowFlight: bool

    /** What isAlive(), getLevel() and isSpectator() report. */
    var alive: bool
    var level: int
    var spectator: bool

    /** Calls made on this player into code outside the model, in order. */
    var calls: seq<Call>

    /** A player with the initial values its fields are declared with. */
    constructor(rawUniqueId: RawId, alive: bool, level: int, spectator: bool)
      ensures this.rawUniqueId == rawUniqueId
      ensures !spawned && !loggedIn && gamemode == Null
      ensures windowCnt == 2 && windowIndex == map[]
      ensures messageCounter == 2 && sendIndex == 0
      ensures connected && removeFormat
      ensures hiddenPlayers == map[]
      ensures autoJump == Bool(true) && !allowFlight
      ensures this.alive == alive && this.level == level && this.spectator == spectator
      ensures calls == []
    {
      this.rawUniqueId := rawUniqueId;
      spawned, loggedIn, gamemode := false, false, Null;
      windowCnt, windowIndex := 2, map[];
      messageCounter, sendIndex := 2, 0;
      connected, removeFormat := true, true;
      hiddenPlayers := map[];
      autoJump, allowFlight := Bool(true), false;
      this.alive, this.level, this.spectator := alive, level, spectator;
      calls := [];
    }

    function GetAllowFlight(): (r: bool)
      reads this
      ensures r == allowFlight
    {
      allowFlight
    }

    /** Stores the value cast to bool, then sends the settings. */
    method SetAllowFlight(value: Value)
      modifies this`allowFlight, this`calls
      ensures GetAllowFlight() == ToBool(value)
      ensures calls == old(calls) + [SendSettings]
    {
      allowFlight := ToBool(value);
      calls := calls + [SendSettings];
    }

    function HasAutoJump(): (r: Value)
      reads this
      ensures r == autoJump
    {
      autoJump
    }

    /** Stores the value as given, with no cast, then sends the settings. */
    method SetAutoJump(value: Value)
      modifies this`autoJump, this`calls
      ensures HasAutoJump() == value
      ensures calls == old(calls) + [SendSettings]
    {
      autoJump := value;
      calls := calls + [SendSettings];
    }

    function GetRemoveFormat(): (r: bool)
      reads this
      ensures r == removeFormat
    {
      removeFormat
    }

    /** Stores the value cast to bool; with no argument, true. */
    method SetRemoveFormat(remove: Value := Bool(true))
      modifies this`removeFormat
      ensures GetRemoveFormat() == ToBool(remove)
    {
      removeFormat := ToBool(remove);
    }

    /** Whether this player sees `p`: its raw unique id is not hidden. */
    predicate CanSee(p: Player)
      reads this
      ensures CanSee(p) <==> forall id | id in hiddenPlayers :: id != p.rawUniqueId
      ensures hiddenPlayers == map[] ==> CanSee(p)
    {
      p.rawUniqueId !in hiddenPlayers
    }

    /** canSee looks at the raw unique id only, not at which object is asked about. */
    lemma CanSeeById(p: Player, q: Player)
      requires p.rawUniqueId == q.rawUniqueId
      ensures CanSee(p) == CanSee(q)
    {
    }

    /**
     * Hides `player` from this one and despawns it from this one's view.
     * Hiding oneself does nothing. Only this player's map changes, so
     * whether `player` sees this one is as before.
     */
    method HidePlayer(player: Player)
      modifies this`hiddenPlayers, player`calls
      ensures hiddenPlayers == Hiding(old(hiddenPlayers), this, player)
      ensures player == this ==> calls == old(calls)
      ensures player != this ==> !CanSee(player)
      ensures player != this ==> player.calls == old(player.calls) + [DespawnedFrom(this)]
      ensures player.CanSee(this) == old(player.CanSee(this))
    {
      if player == this {
        return;
      }
      hiddenPlayers := hiddenPlayers[player.rawUniqueId := player];
      player.calls := player.calls + [DespawnedFrom(this)];
    }

    /** The conditions under which this player is shown to `player`. */
    predicate MaySpawnTo(player: Player)
      reads this, player
      ensures MaySpawnTo(player) ==> rawUniqueId !in player.hiddenPlayers
      ensures MaySpawnTo(player) <==>
        && spawned && player.spawned
        && alive && player.alive
        && player.level == level
        && rawUniqueId !in player.hiddenPlayers
        && !spectator
    {
      spawned && player.spawned && alive && player.alive
      && player.level == level && player.CanSee(this) && !spectator
    }

    /** Shows this player to `player` when every condition holds, else does nothing. */
    method SpawnTo(player: Player)
      modifies this`calls
      ensures old(MaySpawnTo(player)) ==> calls == old(calls) + [SpawnedTo(player)]
      ensures !old(MaySpawnTo(player)) ==> calls == old(calls)
    {
      if MaySpawnTo(player) {
        calls := calls + [SpawnedTo(player)];
      }
    }
  }
}
