/**
 * The behaviour-pack `PlayerManager`: a map from player name to host player,
 * filled and drained by join and leave handlers, with lookups that fall back
 * to the players currently in the world. The world's player list is passed in
 * as a parameter; the 100-tick delay before a join is handled is modelled by
 * splitting the handler into the guard and the delayed action.
 */
module PlayerManagement {
  import opened Host

  /**
   * What a lookup gives back to its caller: a host player or `undefined`
   * (`null`), or the TypeError the lookup throws.
   */
  datatype Lookup = Found(player: HostPlayer?) | Thrown

  /** A JavaScript value handed to `Map.delete`: a string, a player object or `undefined`. */
  datatype JsValue = Str(s: string) | PlayerObject(player: HostPlayer) | Undefined

  /** Index of the first player in `world` named `name`, or `|world|` if there is none. */
  function FindIndex(world: seq<HostPlayer>, name: string): (k: nat)
    ensures k <= |world|
    ensures forall j :: 0 <= j < k ==> world[j].name != name
    ensures k < |world| ==> world[k].name == name
    decreases |world|
  {
    if world == [] then 0
    else if world[0].name == name then 0
    else FindIndex(world[1..], name) + 1
  }

  /** `world.getAllPlayers().find(player => player.name === name)`. */
  function FindByName(world: seq<HostPlayer>, name: string): (r: HostPlayer?)
    ensures r == null <==> forall j :: 0 <= j < |world| ==> world[j].name != name
    ensures r != null ==> r.name == name && r in world
    ensures r != null ==> exists k :: 0 <= k < |world| && world[k] == r && forall j :: 0 <= j < k ==> world[j].name != name
  {
    var k := FindIndex(world, name);
    if k < |world| then world[k] else null
  }

  /**
   * `Map.delete(key)`: keys are compared with SameValueZero, so only a string
   * equal to a key deletes anything.
   */
  function Delete(players: map<string, HostPlayer>, key: JsValue): map<string, HostPlayer>
  {
    match key
    case Str(s) => players - {s}
    case _ => players
  }

  /** Deleting a name removes that entry and keeps every other one. */
  lemma DeleteByName(players: map<string, HostPlayer>, name: string)
    ensures name !in Delete(players, Str(name))
    ensures forall k :: k != name ==> (k in Delete(players, Str(name)) <==> k in players)
    ensures forall k :: k != name && k in players ==> Delete(players, Str(name))[k] == players[k]
  {
  }

  /** Every entry is keyed by its player's name. */
  predicate KeyedByName(players: map<string, HostPlayer>)
  {
    forall k :: k in players ==> players[k].name == k
  }

  /**
   * In a map keyed by name, the stored player's own name deletes its entry,
   * while the stored player object itself (or `undefined`) deletes nothing:
   * the entry for `n` is still there, holding the same player.
   */
  lemma DeleteByStoredPlayer(players: map<string, HostPlayer>, n: string)
    requires KeyedByName(players) && n in players
    ensures Delete(players, Str(players[n].name)) == players - {n}
    ensures n in Delete(players, PlayerObject(players[n])) && Delete(players, PlayerObject(players[n]))[n] == players[n]
    ensures Delete(players, PlayerObject(players[n])) == players && Delete(players, Undefined) == players
  {
  }

  class PlayerManager {
    /** `this.Players`. */
    var players: map<string, HostPlayer>

    /** The map's invariant: every entry is keyed by its player's name. */
    ghost predicate Valid()
      reads this
    {
      KeyedByName(players)
    }

    constructor ()
      ensures Valid() && players == map[]
    {
      players := map[];
    }

    /** `addPlayer`: `undefined` is ignored; otherwise the entry for the player's name is set. */
    method AddPlayer(player: HostPlayer?)
      requires Valid()
      modifies this
      ensures Valid()
      ensures player == null ==> players == old(players)
      ensures player != null ==> players == old(players)[player.name := player]
      ensures player != null ==> GetPlayer(player.name) == Found(player)
    {
      if player == null {
        return;
      }
      players := players[player.name := player];
    }

    /** `addPlayerByName`: adds the first world player with that name, if any. */
    method AddPlayerByName(name: string, world: seq<HostPlayer>)
      requires Valid()
      modifies this
      ensures Valid()
      ensures (forall j :: 0 <= j < |world| ==> world[j].name != name) ==> players == old(players)
      ensures FindByName(world, name) != null ==> players == old(players)[name := FindByName(world, name)]
    {
      var player := FindByName(world, name);
      if player == null {
        return;
      }
      AddPlayer(player);
    }

    /** `removePlayer`: `Map.delete` with whatever value it is given. */
    method RemovePlayer(key: JsValue)
      requires Valid()
      modifies this
      ensures Valid()
      ensures players == Delete(old(players), key)
    {
      match key
      case Str(s) => players := players - {s};
      case _ =>
    }

    /**
     * `getIPlayer`: a stored entry is asked for `.getIPlayer()`, which a host
     * player does not have, so that branch throws; otherwise the first world
     * player with that name, or `undefined`.
     */
    function GetIPlayer(name: string, world: seq<HostPlayer>): (r: Lookup)
      reads this
      ensures name in players <==> r.Thrown?
      ensures name !in players && r.player == null ==> forall j :: 0 <= j < |world| ==> world[j].name != name
      ensures name !in players && r.player != null ==> r.player.name == name && r.player in world
      ensures name !in players && r.player != null ==>
        exists k :: 0 <= k < |world| && world[k] == r.player && forall j :: 0 <= j < k ==> world[j].name != name
    {
      if name in players then Thrown else Found(FindByName(world, name))
    }

    /**
     * `getPlayer`: a stored entry is returned; otherwise `this.world` is
     * undefined and reading `getAllPlayers` from it throws.
     */
    function GetPlayer(name: string): (r: Lookup)
      reads this
      ensures name in players ==> r.Found? && r.player == players[name]
      ensures name !in players ==> r.Thrown?
      ensures Valid() && r.Found? ==> r.player != null && r.player.name == name
    {
      if name in players then Found(players[name]) else Thrown
    }

    /** The join handler's guard: an addition is scheduled only for a name that is not a key. */
    method OnPlayerJoin(playerName: string) returns (scheduled: bool)
      ensures scheduled <==> playerName !in players
    {
      scheduled := playerName !in players;
    }

    /**
     * The action the join handler schedules, `addPlayer(getIPlayer(name))`,
     * run when the delay is over.
     */
    method JoinTimeout(playerName: string, world: seq<HostPlayer>) returns (threw: bool)
      requires Valid()
      modifies this
      ensures Valid()
      ensures threw <==> playerName in old(players)
      ensures threw ==> players == old(players)
      ensures !threw && FindByName(world, playerName) == null ==> players == old(players)
      ensures !threw && FindByName(world, playerName) != null ==>
        players == old(players)[playerName := FindByName(world, playerName)]
    {
      var lookup := GetIPlayer(playerName, world);
      match lookup
      case Thrown =>
        threw := true;
      case Found(player) =>
        threw := false;
        AddPlayer(player);
    }

    /**
     * The leave handler as written: for a stored name it calls `getIPlayer`,
     * whose stored branch throws, so the entry is never deleted. (Were a
     * player returned, it would be handed to `removePlayer`, which deletes
     * nothing for a player object: see `DeleteByStoredPlayer`.)
     */
    method OnPlayerLeave(playerName: string, world: seq<HostPlayer>) returns (threw: bool)
      requires Valid()
      modifies this
      ensures Valid()
      ensures threw <==> playerName in old(players)
      ensures players == old(players)
    {
      threw := false;
      if playerName in players {
        var lookup := GetIPlayer(playerName, world);
        match lookup
        case Thrown =>
          threw := true;
        case Found(_) =>
          // The `removePlayer(player)` that follows in the source; a stored
          // name always makes `getIPlayer` throw, so it is never reached.
          assert false;
      }
    }

    /** The leave handler as intended: the entry for the leaving name is deleted. */
    method OnPlayerLeaveFixed(playerName: string)
      requires Valid()
      modifies this
      ensures Valid()
      ensures players == old(players) - {playerName}
    {
      if playerName in players {
        RemovePlayer(Str(playerName));
      }
    }
  }
}
