/** The room-level dispatcher: one engine per room, chosen by the game type, and an
    outbox of the socket events that handleAction and addPlayer would emit. */
module GameManager {
  import opened Protocol
  import opened Geometry
  import FourChess
  import ChessServer
  import CarromServer

  /** The engine a room runs. */
  datatype Game =
    | ChessGame(chess: ChessServer.State)
    | FourChessGame(four: FourChess.State)
    | CarromGame(carrom: CarromServer.State)

  /** Whatever an engine's processAction returned. */
  datatype Payload =
    | ChessPayload(report: ChessServer.Report)
    | FourChessPayload(snapshot: FourChess.Snapshot)
    | CarromPayload(out: CarromServer.Out)

  /** io.to(roomId).emit('gameUpdate', result) and io.to(playerId).emit('error', {message}). */
  datatype Event =
    | GameUpdate(room: string, payload: Payload)
    | ErrorTo(player: PlayerId, message: string)

  datatype Manager = Manager(roomId: string, gameType: string, game: Option<Game>, players: seq<PlayerId>)

  /** The game types the constructor knows. */
  predicate Known(gameType: string) {
    gameType == "chess" || gameType == "four-chess" || gameType == "carrom"
  }

  /** The engines' own invariants hold for the engine the room runs. */
  predicate Valid(m: Manager) {
    match m.game
    case Some(FourChessGame(s)) => FourChess.Valid(s)
    case Some(CarromGame(s)) => CarromServer.Valid(s)
    case _ => true
  }

  /** The constructor: an unknown game type leaves the room without an engine. */
  function Create(roomId: string, gameType: string, trig: Trig): (m: Manager)
    ensures Valid(m)
    ensures m.roomId == roomId && m.gameType == gameType && m.players == []
    ensures m.game.Some? <==> Known(gameType)
    ensures gameType == "chess" <==> m.game == Some(ChessGame(ChessServer.Initial()))
    ensures gameType == "four-chess" <==> m.game == Some(FourChessGame(FourChess.Initial()))
    ensures gameType == "carrom" <==> m.game == Some(CarromGame(CarromServer.Initial(trig)))
  {
    CarromServer.InitialValid(trig);
    var game :=
      if gameType == "chess" then Some(ChessGame(ChessServer.Initial()))
      else if gameType == "four-chess" then Some(FourChessGame(FourChess.Initial()))
      else if gameType == "carrom" then Some(CarromGame(CarromServer.Initial(trig)))
      else None;
    Manager(roomId, gameType, game, [])
  }

  /** The three outcomes of the try/catch around an engine call: a truthy result is
      broadcast to the room once, null emits nothing, and an exception becomes one error
      addressed to the sender alone. */
  ghost predicate Routed<T>(roomId: string, id: PlayerId, reply: Reply<T>, wrap: T -> Payload, events: seq<Event>) {
    && (reply == Returned(None) <==> events == [])
    && (reply.Returned? && reply.value.Some? ==> events == [GameUpdate(roomId, wrap(reply.value.value))])
    && (reply.Thrown? ==> events == [ErrorTo(id, Message(reply.error))])
  }

  /** What the try/catch does with one engine reply. */
  function Deliver<T>(roomId: string, id: PlayerId, reply: Reply<T>, wrap: T -> Payload): (events: seq<Event>)
    ensures reply == Returned(None) <==> events == []
    ensures reply.Returned? && reply.value.Some? ==> events == [GameUpdate(roomId, wrap(reply.value.value))]
    ensures reply.Thrown? ==> events == [ErrorTo(id, Message(reply.error))]
  {
    match reply
    case Returned(None) => []
    case Returned(Some(v)) => [GameUpdate(roomId, wrap(v))]
    case Thrown(e) => [ErrorTo(id, Message(e))]
  }

  /** handleAction(playerId, action, data). */
  function HandleAction(m: Manager, id: PlayerId, action: Action, lib: ChessServer.ChessLib): (r: (Manager, seq<Event>))
    requires Valid(m)
    ensures Valid(r.0)
    ensures r.0.roomId == m.roomId && r.0.gameType == m.gameType && r.0.players == m.players
    ensures m.game.None? ==> r == (m, [])
    ensures r.0.game.Some? == m.game.Some?
    ensures |r.1| <= 1
    ensures forall e :: e in r.1 ==> (if e.GameUpdate? then e.room == m.roomId else e.player == id)
    ensures m.game.Some? && m.game.value.ChessGame? ==>
      var (s', reply) := ChessServer.ProcessAction(m.game.value.chess, id, action, lib);
      r.0.game == Some(ChessGame(s')) && Routed(m.roomId, id, reply, (x: ChessServer.Report) => ChessPayload(x), r.1)
    ensures m.game.Some? && m.game.value.FourChessGame? ==>
      var (s', reply) := FourChess.ProcessAction(m.game.value.four, id, action);
      r.0.game == Some(FourChessGame(s')) && Routed(m.roomId, id, reply, (x: FourChess.Snapshot) => FourChessPayload(x), r.1)
    ensures m.game.Some? && m.game.value.CarromGame? ==>
      var (s', reply) := CarromServer.ProcessAction(m.game.value.carrom, id, action);
      r.0.game == Some(CarromGame(s')) && Routed(m.roomId, id, reply, (x: CarromServer.Out) => CarromPayload(x), r.1)
  {
    match m.game
    case None => (m, [])
    case Some(ChessGame(s)) =>
      var (s', reply) := ChessServer.ProcessAction(s, id, action, lib);
      (m.(game := Some(ChessGame(s'))), Deliver(m.roomId, id, reply, (x: ChessServer.Report) => ChessPayload(x)))
    case Some(FourChessGame(s)) =>
      var (s', reply) := FourChess.ProcessAction(s, id, action);
      (m.(game := Some(FourChessGame(s'))), Deliver(m.roomId, id, reply, (x: FourChess.Snapshot) => FourChessPayload(x)))
    case Some(CarromGame(s)) =>
      var (s', reply) := CarromServer.ProcessAction(s, id, action);
      (m.(game := Some(CarromGame(s'))), Deliver(m.roomId, id, reply, (x: CarromServer.Out) => CarromPayload(x)))
  }

  /** addPlayer(playerId): the room list always grows; the two-player chess and carrom
      engines also seat the player, four-player chess has no assignPlayer. */
  function AddPlayer(m: Manager, id: PlayerId): (r: Manager)
    requires Valid(m)
    ensures Valid(r)
    ensures r.players == m.players + [id] && r.roomId == m.roomId && r.gameType == m.gameType
    ensures m.game.None? || m.game.value.FourChessGame? ==> r.game == m.game
    ensures m.game.Some? && m.game.value.ChessGame? ==>
      r.game == Some(ChessGame(ChessServer.AssignPlayer(m.game.value.chess, id).0))
    ensures m.game.Some? && m.game.value.CarromGame? ==>
      r.game == Some(CarromGame(CarromServer.AssignPlayer(m.game.value.carrom, id).0))
  {
    var game :=
      match m.game
      case Some(ChessGame(s)) => Some(ChessGame(ChessServer.AssignPlayer(s, id).0))
      case Some(CarromGame(s)) => Some(CarromGame(CarromServer.AssignPlayer(s, id).0))
      case _ => m.game;
    m.(players := m.players + [id], game := game)
  }

  /** getState always reaches the whole room: every engine answers it with a snapshot. */
  lemma GetStateBroadcasts(m: Manager, id: PlayerId, lib: ChessServer.ChessLib)
    requires Valid(m) && m.game.Some?
    ensures var r := HandleAction(m, id, GetState, lib);
      r.0 == m && |r.1| == 1 && r.1[0].GameUpdate? && r.1[0].room == m.roomId
  {
  }

  /** An action name no engine knows emits nothing and changes nothing. */
  lemma UnknownActionIsSilent(m: Manager, id: PlayerId, name: string, lib: ChessServer.ChessLib)
    requires Valid(m)
    ensures HandleAction(m, id, OtherAction(name), lib) == (m, [])
  {
  }

  /** A move out of turn in either chess engine is answered privately and the position
      is left as it was; nobody else in the room hears of it. */
  lemma OutOfTurnMoveAnsweredPrivately(m: Manager, id: PlayerId, from: Field, to: Field, p: Option<string>, lib: ChessServer.ChessLib)
    requires Valid(m) && m.game.Some? && m.game.value.ChessGame?
    requires ChessServer.SeatedSide(m.game.value.chess, id) != Some(lib.turn(m.game.value.chess.fen))
    ensures HandleAction(m, id, Move(from, to, p), lib) == (m, [ErrorTo(id, "Not your turn")])
  {
  }

  /** The carrom engine never throws, so a carrom room never sends an error event. */
  lemma CarromRoomNeverErrors(m: Manager, id: PlayerId, action: Action, lib: ChessServer.ChessLib)
    requires Valid(m) && m.game.Some? && m.game.value.CarromGame?
    ensures forall e :: e in HandleAction(m, id, action, lib).1 ==> e.GameUpdate?
  {
  }

  /** In a fresh chess room the first two arrivals take white and black in order;
      every later arrival only joins the room list. */
  lemma ChessRoomSeatsFirstTwo(m: Manager, a: PlayerId, b: PlayerId, c: PlayerId)
    requires m.game == Some(ChessGame(ChessServer.Initial())) && m.players == []
    requires a != "" && b != ""
    ensures var r := AddPlayer(AddPlayer(AddPlayer(m, a), b), c);
      r.players == [a, b, c] && r.game == Some(ChessGame(ChessServer.State([], ChessServer.StartFen, Some(a), Some(b))))
  {
    var m1 := AddPlayer(m, a);
    assert m1.game == Some(ChessGame(ChessServer.State([], ChessServer.StartFen, Some(a), None)));
    var m2 := AddPlayer(m1, b);
    assert m2.game == Some(ChessGame(ChessServer.State([], ChessServer.StartFen, Some(a), Some(b))));
  }
}
