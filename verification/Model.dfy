/** The tables, and the transitions of one game row (model/game.go, usecase/game_logic.go). */
module Model {
  import opened Common
  import opened Digits
  import Secrets

  datatype Role = RegularUser | Master

  datatype User = User(
    username: string,
    role: Role,
    winCount: nat,
    deletedAt: Option<Time>,
    deletedBy: Option<Uuid>)
  {
    predicate IsDeleted() { deletedAt.Some? }
    predicate IsMaster() { role == Master }
  }

  datatype GameStatus = WaitingSecret | InProgress | Finished

  datatype Game = Game(
    status: GameStatus,
    player1: Uuid,
    player2: Uuid,
    secret1: string,
    secret2: string,
    turnPlayer: Option<Uuid>,
    turn: int,
    winner: Option<Uuid>,
    startedAt: Option<Time>,
    finishedAt: Option<Time>,
    createdAt: Time)
  {
    predicate IsParticipant(user: Uuid) { player1 == user || player2 == user }
    predicate IsCurrentTurn(user: Uuid) { turnPlayer == Some(user) }
    predicate CanGuess(user: Uuid) { status == InProgress && IsCurrentTurn(user) }
    predicate BothSecretsSet() { secret1 != "" && secret2 != "" }
    predicate IsActive() { status == WaitingSecret || status == InProgress }
  }

  /** `number` is the guessed text, `results` its per-digit verdict. */
  datatype Guess = Guess(
    game: Uuid,
    player: Uuid,
    turn: int,
    number: string,
    results: FourResults,
    hitCount: nat,
    isAuto: bool)

  datatype History = History(
    game: Uuid,
    winner: Uuid,
    loser: Uuid,
    winnerName: string,
    loserName: string,
    finishedAt: Time)

  /** A row of matching_queue; "waiting" is the only status the schema knows. */
  datatype Entry = Entry(user: Uuid, createdAt: Time)

  datatype TokenStatus = Active | Revoked

  datatype Token = Token(
    user: Uuid,
    hash: string,
    family: Uuid,
    status: TokenStatus,
    expiresAt: Time,
    revokedAt: Option<Time>,
    replacedBy: Option<Uuid>)
  {
    predicate IsRevoked() { revokedAt.Some? || status == Revoked }
    predicate IsExpired(now: Time) { expiresAt <= now }
    predicate IsActive(now: Time) { !IsRevoked() && !IsExpired(now) }
  }

  /** The database: one map per table, keyed by primary key. */
  datatype Db = Db(
    users: map<Uuid, User>,
    games: map<Uuid, Game>,
    guesses: map<Uuid, Guess>,
    histories: map<Uuid, History>,
    queue: map<Uuid, Entry>,
    tokens: map<Uuid, Token>)

  const EMPTY_DB := Db(map[], map[], map[], map[], map[], map[])

  /** Deployment settings. `secretColumn` is the length the database enforces on a stored
      secret: Some(255) where the declared column size is enforced, None where it is not. */
  datatype Config = Config(
    hasher: Secrets.Hasher,
    secretSetup: Time,
    turnDuration: Time,
    secretColumn: Option<nat>)

  // ---------- Transitions of one game row ----------

  function NewGame(player1: Uuid, player2: Uuid, now: Time): Game {
    Game(WaitingSecret, player1, player2, "", "", None, 1, None, None, None, now)
  }

  function WithSecret(g: Game, user: Uuid, hash: string): Result<Game, Error> {
    if user == g.player1 then
      if g.secret1 != "" then Err(BadRequest) else Ok(g.(secret1 := hash))
    else if user == g.player2 then
      if g.secret2 != "" then Err(BadRequest) else Ok(g.(secret2 := hash))
    else Err(Forbidden)
  }

  function Started(g: Game, now: Time): Result<Game, Error> {
    if g.status != WaitingSecret || !g.BothSecretsSet() then Err(BadRequest)
    else Ok(g.(status := InProgress, turn := 1, turnPlayer := Some(g.player1), startedAt := Some(now)))
  }

  function OpponentOf(g: Game, user: Uuid): Result<Uuid, Error> {
    if user == g.player1 then Ok(g.player2)
    else if user == g.player2 then Ok(g.player1)
    else Err(Forbidden)
  }

  /** The row after `user` has guessed: the turn passes to the opponent. */
  function Advanced(g: Game, user: Uuid): Result<Game, Error> {
    if g.status != InProgress then Err(GameNotStarted)
    else if !g.CanGuess(user) then Err(NotYourTurn)
    else match OpponentOf(g, user)
      case Err(e) => Err(e)
      case Ok(next) => Ok(g.(turn := g.turn + 1, turnPlayer := Some(next)))
  }

  function Won(g: Game, winner: Uuid, now: Time): Result<Game, Error> {
    if g.status != InProgress then Err(GameAlreadyFinished)
    else if winner != g.player1 && winner != g.player2 then Err(WinnerNotInGame)
    else Ok(g.(status := Finished, winner := Some(winner), finishedAt := Some(now)))
  }

  function Cancelled(g: Game, now: Time): Result<Game, Error> {
    if g.status != WaitingSecret then Err(BadRequest)
    else Ok(g.(status := Finished, finishedAt := Some(now)))
  }

  // ---------- The game row in memory ----------

  /** A game row loaded for update: the use cases assign its fields and save it back. */
  class GameRow {
    var status: GameStatus
    const player1: Uuid
    const player2: Uuid
    var secret1: string
    var secret2: string
    var turnPlayer: Option<Uuid>
    var turn: int
    var winner: Option<Uuid>
    var startedAt: Option<Time>
    var finishedAt: Option<Time>
    const createdAt: Time

    function Value(): Game
      reads this
    {
      Game(status, player1, player2, secret1, secret2, turnPlayer, turn, winner, startedAt, finishedAt, createdAt)
    }

    constructor (g: Game)
      ensures Value() == g
    {
      status, player1, player2 := g.status, g.player1, g.player2;
      secret1, secret2 := g.secret1, g.secret2;
      turnPlayer, turn, winner := g.turnPlayer, g.turn, g.winner;
      startedAt, finishedAt, createdAt := g.startedAt, g.finishedAt, g.createdAt;
    }

    method SetSecretHash(user: Uuid, hash: string) returns (r: Result<(), Error>)
      modifies this
      ensures match WithSecret(old(Value()), user, hash)
              case Ok(g) => r == Ok(()) && Value() == g
              case Err(e) => r == Err(e) && Value() == old(Value())
    {
      if user == player1 {
        if secret1 != "" {
          return Err(BadRequest);
        }
        secret1 := hash;
        return Ok(());
      }
      if user == player2 {
        if secret2 != "" {
          return Err(BadRequest);
        }
        secret2 := hash;
        return Ok(());
      }
      return Err(Forbidden);
    }

    method Start(now: Time) returns (r: Result<(), Error>)
      modifies this
      ensures match Started(old(Value()), now)
              case Ok(g) => r == Ok(()) && Value() == g
              case Err(e) => r == Err(e) && Value() == old(Value())
    {
      if status != WaitingSecret || !Value().BothSecretsSet() {
        return Err(BadRequest);
      }
      status := InProgress;
      turn := 1;
      turnPlayer := Some(player1);
      startedAt := Some(now);
      return Ok(());
    }

    /** addGameGuess: the guess row to insert, and the turn passed on. */
    method AddGuess(id: Uuid, user: Uuid, digits: Number, results: FourResults, isAuto: bool)
      returns (r: Result<Guess, Error>)
      modifies this
      ensures match Advanced(old(Value()), user)
              case Ok(g) =>
                && r == Ok(Guess(id, user, old(turn), Format(digits), results, Hits(results), isAuto))
                && Value() == g
              case Err(e) => r == Err(e) && Value() == old(Value())
    {
      if status != InProgress {
        return Err(GameNotStarted);
      }
      if !Value().CanGuess(user) {
        return Err(NotYourTurn);
      }
      var n := HitCount(results);
      var row := Guess(id, user, turn, Format(digits), results, n, isAuto);
      var next := OpponentOf(Value(), user);
      if next.Err? {
        return Err(next.error);
      }
      turn := turn + 1;
      turnPlayer := Some(next.value);
      return Ok(row);
    }

    method Finish(winnerId: Uuid, now: Time) returns (r: Result<(), Error>)
      modifies this
      ensures match Won(old(Value()), winnerId, now)
              case Ok(g) => r == Ok(()) && Value() == g
              case Err(e) => r == Err(e) && Value() == old(Value())
    {
      if status != InProgress {
        return Err(GameAlreadyFinished);
      }
      if winnerId != player1 && winnerId != player2 {
        return Err(WinnerNotInGame);
      }
      status := Finished;
      winner := Some(winnerId);
      finishedAt := Some(now);
      return Ok(());
    }

    method CancelBySecretTimeout(now: Time) returns (r: Result<(), Error>)
      modifies this
      ensures match Cancelled(old(Value()), now)
              case Ok(g) => r == Ok(()) && Value() == g
              case Err(e) => r == Err(e) && Value() == old(Value())
    {
      if status != WaitingSecret {
        return Err(BadRequest);
      }
      status := Finished;
      finishedAt := Some(now);
      return Ok(());
    }
  }
}
