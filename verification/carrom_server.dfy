/** The carrom game of server/games/carrom.js. The server does no physics: it lays
    out the coins, seats up to four players, gates 'shoot' and 'endTurn' on the
    current player, and adopts whatever final coin state the shooting client sends. */
module CarromServer {
  import opened Protocol
  import opened Geometry
  import opened Text

  datatype Phase = Waiting | Active

  datatype State = State(
    coins: seq<Coin>,
    striker: Striker,
    players: seq<PlayerId>,
    current: nat,
    phase: Phase,
    scores: seq<int>)

  /** What processAction returns: the full state, the 'shoot' broadcast, or the
      'stateUpdate' broadcast. */
  datatype Out =
    | Snapshot(coins: seq<Coin>, striker: Striker, scores: seq<int>, turn: nat, phase: Phase, players: seq<PlayerId>)
    | ShotEvent(angle: real, power: real, positionX: real, pIndex: int)
    | StateUpdate(coins: seq<Coin>, striker: Striker, turn: nat)

  const Centre: real := 400.0
  const CoinRadius: real := 14.0
  const InnerRing: real := 29.0
  const OuterRing: real := 54.0

  /** Ring coins alternate white and black, starting with white. */
  function RingColor(i: nat): CoinColor {
    if i % 2 == 0 then WhiteCoin else BlackCoin
  }

  /** The i-th coin of a ring of coins spaced stepDegrees apart at distance ring from
      the centre, alternately white and black starting with white. */
  function RingCoin(prefix: string, i: nat, stepDegrees: real, ring: real, trig: Trig): Coin {
    var angle := RingAngle(i, stepDegrees, trig);
    Coin(prefix + NatToString(i), Centre + trig.cos(angle) * ring, Centre + trig.sin(angle) * ring,
         CoinRadius, RingColor(i), 0.0, 0.0, true, 1.0)
  }

  const Queen: Coin := Coin("queen", Centre, Centre, CoinRadius, RedCoin, 0.0, 0.0, true, 1.0)

  /** setupCoins: the queen, six coins at 60-degree steps on the inner ring, twelve at
      30-degree steps on the outer ring. */
  function SetupCoins(trig: Trig): (coins: seq<Coin>)
    ensures |coins| == 19
    ensures forall k :: 0 <= k < 19 ==>
              coins[k].radius == CoinRadius && coins[k].mass == 1.0 && coins[k].active && coins[k].vx == 0.0 && coins[k].vy == 0.0
    ensures coins[0] == Queen
    ensures forall k :: 1 <= k < 7 ==> coins[k] == RingCoin("inner-", k - 1, 60.0, InnerRing, trig)
    ensures forall k :: 7 <= k < 19 ==> coins[k] == RingCoin("outer-", k - 7, 30.0, OuterRing, trig)
  {
    [Queen]
    + seq(6, i requires 0 <= i < 6 => RingCoin("inner-", i, 60.0, InnerRing, trig))
    + seq(12, i requires 0 <= i < 12 => RingCoin("outer-", i, 30.0, OuterRing, trig))
  }

  function Colors(coins: seq<Coin>): seq<CoinColor> {
    seq(|coins|, k requires 0 <= k < |coins| => coins[k].color)
  }

  function RingColors(n: nat): seq<CoinColor> {
    seq(n, i requires 0 <= i < n => RingColor(i))
  }

  lemma SetupColorsLayered(trig: Trig)
    ensures Colors(SetupCoins(trig)) == [RedCoin] + RingColors(6) + RingColors(12)
  {
    var cs := SetupCoins(trig);
    var lhs, rhs := Colors(cs), [RedCoin] + RingColors(6) + RingColors(12);
    forall k | 0 <= k < 19
      ensures lhs[k] == rhs[k]
    {
      if k == 0 {
      } else if k < 7 {
        assert cs[k] == RingCoin("inner-", k - 1, 60.0, InnerRing, trig);
      } else {
        assert cs[k] == RingCoin("outer-", k - 7, 30.0, OuterRing, trig);
      }
    }
  }

  /** The layout holds one red queen, nine white and nine black coins. */
  lemma SetupColors(trig: Trig)
    ensures var m := multiset(Colors(SetupCoins(trig)));
      m[RedCoin] == 1 && m[WhiteCoin] == 9 && m[BlackCoin] == 9
  {
    SetupColorsLayered(trig);
    var W, K := WhiteCoin, BlackCoin;
    var pair := [W, K];
    assert RingColors(6) == pair + pair + pair;
    assert RingColors(12) == pair + pair + pair + pair + pair + pair;
    assert multiset(pair) == multiset{W, K};
    assert multiset([RedCoin] + RingColors(6) + RingColors(12))
        == multiset{RedCoin} + multiset{W, K} + multiset{W, K} + multiset{W, K} + multiset{W, K}
           + multiset{W, K} + multiset{W, K} + multiset{W, K} + multiset{W, K} + multiset{W, K};
  }

  function RingAngle(i: nat, stepDegrees: real, trig: Trig): real {
    (i as real * stepDegrees) * trig.pi / 180.0
  }

  lemma RingOffsets(prefix: string, i: nat, step: real, ring: real, trig: Trig)
    ensures var c := RingCoin(prefix, i, step, ring, trig);
      c.x - Centre == trig.cos(RingAngle(i, step, trig)) * ring && c.y - Centre == trig.sin(RingAngle(i, step, trig)) * ring
  {
  }

  lemma ScaledUnit(co: real, si: real, ring: real)
    requires co * co + si * si == 1.0
    ensures (co * ring) * (co * ring) + (si * ring) * (si * ring) == ring * ring
  {
    assert (co * ring) * (co * ring) + (si * ring) * (si * ring) == (co * co + si * si) * (ring * ring);
  }

  /** Squared distance of a coin from the centre of the board. */
  function CentreDistance2(c: Coin): real {
    (c.x - Centre) * (c.x - Centre) + (c.y - Centre) * (c.y - Centre)
  }

  /** A ring coin sits at distance ring from the centre. */
  lemma RingCoinOnRing(prefix: string, i: nat, step: real, ring: real, trig: Trig)
    requires UnitCircle(trig)
    ensures CentreDistance2(RingCoin(prefix, i, step, ring, trig)) == ring * ring
  {
    var a := RingAngle(i, step, trig);
    RingOffsets(prefix, i, step, ring, trig);
    ScaledUnit(trig.cos(a), trig.sin(a), ring);
  }

  /** Every coin sits exactly on its ring: the layout is as symmetric as cos and sin are. */
  lemma SetupOnRings(trig: Trig, k: nat)
    requires UnitCircle(trig) && k < 19
    ensures CentreDistance2(SetupCoins(trig)[k]) == if k == 0 then 0.0 else if k < 7 then InnerRing * InnerRing else OuterRing * OuterRing
  {
    var cs := SetupCoins(trig);
    if k == 0 {
    } else if k < 7 {
      assert cs[k] == RingCoin("inner-", k - 1, 60.0, InnerRing, trig);
      RingCoinOnRing("inner-", k - 1, 60.0, InnerRing, trig);
    } else {
      assert cs[k] == RingCoin("outer-", k - 7, 30.0, OuterRing, trig);
      RingCoinOnRing("outer-", k - 7, 30.0, OuterRing, trig);
    }
  }

  /** Two ids built from the same prefix and different numbers differ. */
  lemma PrefixedIdsDistinct(prefix: string, i: nat, j: nat)
    requires i != j
    ensures prefix + NatToString(i) != prefix + NatToString(j)
  {
    var a, b := prefix + NatToString(i), prefix + NatToString(j);
    assert NatToString(i) == a[|prefix|..];
    assert NatToString(j) == b[|prefix|..];
    if a == b {
      NatToStringInjective(i, j);
    }
  }

  /** The nineteen coin ids are pairwise distinct. */
  lemma SetupIdsDistinct(trig: Trig, j: nat, k: nat)
    requires j < 19 && k < 19 && j != k
    ensures SetupCoins(trig)[j].id != SetupCoins(trig)[k].id
  {
    var cs := SetupCoins(trig);
    IdInitial(trig, j);
    IdInitial(trig, k);
    if 0 < j < 7 && 0 < k < 7 {
      PrefixedIdsDistinct("inner-", j - 1, k - 1);
    } else if 7 <= j && 7 <= k {
      PrefixedIdsDistinct("outer-", j - 7, k - 7);
    } else {
      assert cs[j].id[0] != cs[k].id[0];
    }
  }

  /** The first letter of each id tells the queen and the two rings apart. */
  lemma IdInitial(trig: Trig, k: nat)
    requires k < 19
    ensures |SetupCoins(trig)[k].id| > 0
    ensures SetupCoins(trig)[k].id[0] == if k == 0 then 'q' else if k < 7 then 'i' else 'o'
  {
    var id := SetupCoins(trig)[k].id;
    if k == 0 {
      assert id == ['q', 'u', 'e', 'e', 'n'];
    } else if k < 7 {
      assert id == "inner-" + NatToString(k - 1);
      assert "inner-" == ['i', 'n', 'n', 'e', 'r', '-'];
    } else {
      assert id == "outer-" + NatToString(k - 7);
      assert "outer-" == ['o', 'u', 't', 'e', 'r', '-'];
    }
  }

  /** The constructor. */
  function Initial(trig: Trig): State {
    State(SetupCoins(trig), Striker(400.0, 140.0, 0.0, 0.0, true), [], 0, Waiting, [0, 0, 0, 0])
  }

  /** What every reachable state satisfies: at most four players, a turn index within
      Math.max(1, players.length), and the game active exactly once two have joined. */
  predicate Valid(s: State) {
    |s.players| <= 4 && s.current < (if |s.players| == 0 then 1 else |s.players|)
    && (s.phase == Active <==> |s.players| >= 2)
  }

  lemma InitialValid(trig: Trig)
    ensures Valid(Initial(trig))
  {
  }

  /** assignPlayer: append while there are fewer than four players and return the
      last index, which is the newcomer's seat only when there was room. */
  function AssignPlayer(s: State, id: PlayerId): (r: (State, int))
    requires Valid(s)
    ensures Valid(r.0)
    ensures |s.players| < 4 ==> r.0.players == s.players + [id] && r.1 == |s.players|
    ensures |s.players| == 4 ==> r.0.players == s.players && r.1 == 3
    ensures r.0.coins == s.coins && r.0.striker == s.striker && r.0.current == s.current && r.0.scores == s.scores
  {
    var players := if |s.players| < 4 then s.players + [id] else s.players;
    var phase := if |players| >= 2 then Active else s.phase;
    (s.(players := players, phase := phase), |players| - 1)
  }

  /** players.indexOf: the first seat holding the id, or -1. */
  function IndexOf(players: seq<PlayerId>, id: PlayerId): (i: int)
    ensures i == -1 <==> id !in players
    ensures 0 <= i ==> i < |players| && players[i] == id && id !in players[..i]
  {
    if |players| == 0 then -1
    else if players[0] == id then 0
    else
      var j := IndexOf(players[1..], id);
      if j < 0 then
        assert players == [players[0]] + players[1..];
        -1
      else
        assert players[..j + 1] == [players[0]] + players[1..][..j];
        j + 1
  }

  /** A newcomer who found room is found at the seat assignPlayer returned. */
  lemma AssignedSeatIsFound(s: State, id: PlayerId)
    requires Valid(s) && |s.players| < 4 && id !in s.players
    ensures IndexOf(AssignPlayer(s, id).0.players, id) == AssignPlayer(s, id).1
  {
    var ps := s.players + [id];
    assert ps[|s.players|] == id;
  }

  /** No id holds two seats. */
  predicate Distinct(players: seq<PlayerId>) {
    forall i, j :: 0 <= i < j < |players| ==> players[i] != players[j]
  }

  /** With distinct ids, indexOf finds every seated player at their own seat. */
  lemma IndexOfSeat(players: seq<PlayerId>, k: nat)
    requires Distinct(players) && k < |players|
    ensures IndexOf(players, players[k]) == k
  {
    var i := IndexOf(players, players[k]);
    assert players[k] in players;
  }

  /** The single-player testing mode: one player, still waiting. */
  predicate Testing(s: State) {
    s.phase == Waiting && |s.players| == 1
  }

  /** Whether the player may shoot or end the turn now. */
  predicate MayAct(s: State, id: PlayerId) {
    Testing(s) || (s.phase == Active && IndexOf(s.players, id) == s.current)
  }

  /** processAction(playerId, action, data). */
  function ProcessAction(s: State, id: PlayerId, action: Action): (r: (State, Reply<Out>))
    requires Valid(s)
    ensures Valid(r.0)
    ensures r.0.players == s.players && r.0.phase == s.phase && r.0.scores == s.scores
    ensures r.1.Returned?
    ensures action.GetState? ==> r == (s, Returned(Some(Snapshot(s.coins, s.striker, s.scores, s.current, s.phase, s.players))))
    ensures !action.GetState? && !MayAct(s, id) ==> r == (s, Returned(None))
    ensures !action.GetState? && !action.Shoot? && !action.EndTurn? ==> r == (s, Returned(None))
  {
    if action.GetState? then (s, Returned(Some(Snapshot(s.coins, s.striker, s.scores, s.current, s.phase, s.players))))
    else
      var pIndex := IndexOf(s.players, id);
      var testing := Testing(s);
      if !testing && s.phase != Active then (s, Returned(None))
      else if !testing && pIndex != s.current then (s, Returned(None))
      else
        match action
        case Shoot(angle, power, positionX) =>
          (s.(striker := s.striker.(x := positionX)), Returned(Some(ShotEvent(angle, power, positionX, pIndex))))
        case EndTurn(coins, striker, switchTurn) =>
          var s' := s.(coins := if coins.Some? then coins.value else s.coins,
                       striker := if striker.Some? then striker.value else s.striker,
                       current := if switchTurn then (s.current + 1) % (if |s.players| == 0 then 1 else |s.players|) else s.current);
          (s', Returned(Some(StateUpdate(s'.coins, s'.striker, s'.current))))
        case _ => (s, Returned(None))
  }

  /** A shot moves only the striker's x to the chosen baseline position and reports
      the shooter's seat, which is -1 for a lone tester who is not seated. */
  lemma ShootOnlyMovesStriker(s: State, id: PlayerId, angle: real, power: real, x: real)
    requires Valid(s) && MayAct(s, id)
    ensures var r := ProcessAction(s, id, Shoot(angle, power, x));
      && r.0 == s.(striker := s.striker.(x := x))
      && r.1 == Returned(Some(ShotEvent(angle, power, x, IndexOf(s.players, id))))
  {
  }

  /** endTurn adopts exactly what the client supplied, the turn moves to the next
      seat, wrapping around, only when the client asks for it, and the reply is a
      'stateUpdate' carrying the adopted coins and striker and the new turn. */
  lemma EndTurnAdopts(s: State, id: PlayerId, coins: Option<seq<Coin>>, striker: Option<Striker>, switchTurn: bool)
    requires Valid(s) && MayAct(s, id)
    ensures var r := ProcessAction(s, id, EndTurn(coins, striker, switchTurn)).0;
      && ProcessAction(s, id, EndTurn(coins, striker, switchTurn)).1 == Returned(Some(StateUpdate(r.coins, r.striker, r.current)))
      && (coins.Some? ==> r.coins == coins.value) && (coins.None? ==> r.coins == s.coins)
      && (striker.Some? ==> r.striker == striker.value) && (striker.None? ==> r.striker == s.striker)
      && (switchTurn && |s.players| > 0 ==> r.current == (s.current + 1) % |s.players|)
      && (!switchTurn ==> r.current == s.current)
  {
  }

  /** One turn-switching endTurn sent by the player whose turn it is. */
  function EndOwnTurn(t: State): (u: State)
    requires Valid(t) && t.phase == Active
    ensures Valid(u) && u.players == t.players && u.phase == Active
    ensures SeatsFound(t.players) ==> u.current == NextSeat(t.current, |t.players|)
  {
    assert SeatsFound(t.players) ==> IndexOf(t.players, t.players[t.current]) == t.current;
    NextSeatIsModular(t.current, |t.players|);
    ProcessAction(t, t.players[t.current], EndTurn(None, None, true)).0
  }

  /** k successive turn-switching endTurns, each sent by the player whose turn it is. */
  function SwitchTurns(s: State, k: nat): (t: State)
    requires Valid(s) && s.phase == Active
    ensures Valid(t) && t.players == s.players && t.phase == Active
  {
    if k == 0 then s else EndOwnTurn(SwitchTurns(s, k - 1))
  }

  /** Every player's id is looked up to that player's own seat. */
  predicate SeatsFound(players: seq<PlayerId>) {
    forall k :: 0 <= k < |players| ==> IndexOf(players, players[k]) == k
  }

  /** Distinct ids are always found at their own seats. */
  lemma DistinctSeatsFound(players: seq<PlayerId>)
    requires Distinct(players)
    ensures SeatsFound(players)
  {
    forall k | 0 <= k < |players| ensures IndexOf(players, players[k]) == k {
      IndexOfSeat(players, k);
    }
  }

  /** The seat after c at a table of n. */
  function NextSeat(c: nat, n: nat): nat {
    if c + 1 >= n then 0 else c + 1
  }

  lemma NextSeatIsModular(c: nat, n: nat)
    requires c < n
    ensures NextSeat(c, n) == (c + 1) % n
  {
    if c + 1 < n {
      ModOf(c + 1, n, 0, c + 1);
    } else {
      ModOf(c + 1, n, 1, 0);
    }
  }

  /** The seat k turns after c. */
  function Seat(c: nat, k: nat, n: nat): nat {
    if k == 0 then c else NextSeat(Seat(c, k - 1, n), n)
  }

  /** Counting seats round the table is addition modulo the table size. */
  lemma {:induction false} SeatIsModular(c: nat, k: nat, n: nat)
    requires c < n
    ensures Seat(c, k, n) == (c + k) % n
  {
    if k > 0 {
      SeatIsModular(c, k - 1, n);
      var x := Seat(c, k - 1, n);
      ModOf(c + (k - 1), n, (c + (k - 1)) / n, x);
      NextSeatIsModular(x, n);
      ModSucc(c + (k - 1), c + k, n);
    } else {
      ModOf(c, n, 0, c);
    }
  }

  /** n seats on from c at a table of n is c again. */
  lemma SeatFullCircle(c: nat, n: nat)
    requires c < n
    ensures Seat(c, n, n) == c
  {
    SeatIsModular(c, n, n);
    ModOf(c + n, n, 1, c);
  }

  lemma {:induction false} RoundFrom(s: State, k: nat)
    requires Valid(s) && s.phase == Active && SeatsFound(s.players)
    ensures SwitchTurns(s, k).current == Seat(s.current, k, |s.players|)
  {
    if k > 0 {
      RoundFrom(s, k - 1);
      SwitchStep(s, k);
    }
  }

  /** One more switch moves the turn one seat on. */
  lemma SwitchStep(s: State, k: nat)
    requires Valid(s) && s.phase == Active && SeatsFound(s.players) && k > 0
    ensures SwitchTurns(s, k).current == NextSeat(SwitchTurns(s, k - 1).current, |s.players|)
  {
  }

  /** The turn goes round the table in seating order: after k switches it is seat
      (start + k) mod n. */
  lemma TurnsGoRound(s: State, k: nat)
    requires Valid(s) && s.phase == Active && Distinct(s.players)
    ensures SwitchTurns(s, k).current == (s.current + k) % |s.players|
  {
    DistinctSeatsFound(s.players);
    RoundFrom(s, k);
    SeatIsModular(s.current, k, |s.players|);
  }

  /** After as many switches as there are players the turn is back where it started. */
  lemma FullRound(s: State)
    requires Valid(s) && s.phase == Active && Distinct(s.players)
    ensures SwitchTurns(s, |s.players|).current == s.current
  {
    DistinctSeatsFound(s.players);
    RoundFrom(s, |s.players|);
    SeatFullCircle(s.current, |s.players|);
  }

  lemma ModSucc(a: nat, b: nat, n: nat)
    requires n > 0 && b == a + 1
    ensures (a % n + 1) % n == b % n
  {
    var q, r := a / n, a % n;
    assert a == q * n + r;
    if r + 1 < n {
      ModOf(a + 1, n, q, r + 1);
      ModOf(r + 1, n, 0, r + 1);
    } else {
      assert a + 1 == (q + 1) * n;
      ModOf(a + 1, n, q + 1, 0);
      ModOf(r + 1, n, 1, 0);
    }
  }

  /** The remainder is the unique r in [0, n) with x == q * n + r. */
  lemma ModOf(x: int, n: int, q: int, r: int)
    requires n > 0 && 0 <= r < n && x == q * n + r
    ensures x % n == r
  {
    var q', r' := x / n, x % n;
    var d := q - q';
    assert x == q' * n + r';
    assert d * n == r' - r by {
      assert d * n == q * n - q' * n;
    }
    if d > 0 {
      MulAtLeast(d, n);
    } else if d < 0 {
      MulAtLeast(-d, n);
    }
  }

  lemma MulAtLeast(d: int, n: int)
    requires d >= 1 && n >= 1
    ensures d * n >= n
  {
    assert d * n == (d - 1) * n + n;
    assert (d - 1) * n >= 0;
  }
}
