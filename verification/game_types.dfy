/**
 * Constants, enumerations and the player roster of the Ludo engine
 * (src/store/gameTypes.js), plus the player record the reducer builds from it.
 */
module GameTypes {

  import opened Wrappers

  /** GAME_CONSTANTS */
  const BOARD_SIZE: int := 15
  const PIECES_PER_PLAYER: int := 4
  const MAX_POSITION: int := 57
  const HOME_POSITION: int := 0
  const WINNING_DICE_VALUE: int := 6
  const TOTAL_PATH_LENGTH: int := 56

  datatype Color = Red | Blue | Yellow | Green

  /** GAME_STATUS */
  datatype Status = Setup | InProgress | Finished | Paused

  /** NETWORK_MODE */
  datatype NetworkMode = Local | Host | Guest

  /** CONNECTION_STATUS */
  datatype ConnectionStatus = Disconnected | Connecting | Connected | ConnectionError

  /** One entry of PLAYER_CONFIGS: a seat's fixed id, colour and display name. */
  datatype PlayerConfig = PlayerConfig(id: int, color: Color, name: string)

  /**
   * A seated player. `pieces[j]` is the path index of piece slot j:
   * 0 is the yard, 57 is the finished centre.
   */
  datatype Player = Player(id: int, color: Color, name: string, pieces: seq<int>, score: int)

  /** The id every colour keeps in every roster. */
  function ColorId(c: Color): int {
    match c
    case Red => 0
    case Blue => 1
    case Yellow => 2
    case Green => 3
  }

  function DisplayName(c: Color): string {
    match c
    case Red => "Red"
    case Blue => "Blue"
    case Yellow => "Yellow"
    case Green => "Green"
  }

  function Config(c: Color): PlayerConfig {
    PlayerConfig(ColorId(c), c, DisplayName(c))
  }

  function Colors(cs: seq<PlayerConfig>): seq<Color> {
    seq(|cs|, i requires 0 <= i < |cs| => cs[i].color)
  }

  ghost predicate DistinctColors(cs: seq<Color>) {
    forall i, j :: 0 <= i < j < |cs| ==> cs[i] != cs[j]
  }

  /**
   * PLAYER_CONFIGS[n]: defined for 2, 3 and 4 players only. Seats go
   * red, (blue,) yellow(, green); every seat is stamped with its colour's
   * fixed id, so the second seat of a two-player game has id 2.
   */
  function PlayerConfigs(n: int): (r: Option<seq<PlayerConfig>>)
    ensures r.Some? <==> 2 <= n <= 4
    ensures r.Some? ==> |r.value| == n
    ensures r.Some? ==> DistinctColors(Colors(r.value))
    ensures r.Some? ==> forall i :: 0 <= i < |r.value| ==>
      r.value[i].id == ColorId(r.value[i].color) && r.value[i].name == DisplayName(r.value[i].color)
    ensures r.Some? ==> r.value[0].color == Red && r.value[|r.value| - 1].color != Red
  {
    if n == 2 then Some([Config(Red), Config(Yellow)])
    else if n == 3 then Some([Config(Red), Config(Blue), Config(Yellow)])
    else if n == 4 then Some([Config(Red), Config(Blue), Config(Yellow), Config(Green)])
    else None
  }

  /** The colours of PLAYER_CONFIGS[n] in seat order, stated independently of the roster. */
  function SeatColors(n: int): seq<Color> {
    if n == 2 then [Red, Yellow]
    else if n == 3 then [Red, Blue, Yellow]
    else [Red, Blue, Yellow, Green]
  }

  lemma SeatOrder(n: int)
    requires 2 <= n <= 4
    ensures PlayerConfigs(n).Some? && Colors(PlayerConfigs(n).value) == SeatColors(n)
  {
  }
}
