/** The shapes the server engines exchange with the room layer: player ids, the
    action a client sends ('getState', 'move', 'shoot', 'endTurn', anything else)
    with its data, and what an engine's processAction hands back: a value, null,
    or an exception. */
module Protocol {

  datatype Option<+T> = None | Some(value: T)

  /** A socket id. */
  type PlayerId = string

  /** The exceptions an engine raises; TypeError stands for the runtime's own errors
      (reading or writing through an undefined row), whose text is not modelled. */
  datatype Error = NotYourTurn | InvalidMove | TypeError

  function Message(e: Error): string {
    match e
    case NotYourTurn => "Not your turn"
    case InvalidMove => "Invalid move"
    case TypeError => "TypeError"
  }

  /** What processAction does: return a value (None is JavaScript's null) or throw. */
  datatype Reply<+T> = Returned(value: Option<T>) | Thrown(error: Error)

  /** A 'from' or 'to' field of a move: a square name ('e2'), a {r, c} pair, or absent. */
  datatype Field = Named(name: string) | Coord(r: int, c: int) | Absent

  /** Server-side carrom coin record, as setupCoins builds it and endTurn receives it. */
  datatype CoinColor = WhiteCoin | BlackCoin | RedCoin

  datatype Coin = Coin(
    id: string, x: real, y: real, radius: real, color: CoinColor,
    vx: real, vy: real, active: bool, mass: real)

  datatype Striker = Striker(x: real, y: real, vx: real, vy: real, visible: bool)

  /** An action name with the data fields the engines read. */
  datatype Action =
    | GetState
    | Move(from: Field, to: Field, promotion: Option<string>)
    | Shoot(angle: real, power: real, positionX: real)
    | EndTurn(coins: Option<seq<Coin>>, striker: Option<Striker>, switchTurn: bool)
    | OtherAction(name: string)
}
