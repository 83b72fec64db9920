/** The carrom computer player of server/ai/carromEngine.js. For every active coin
    and every pocket it aims the striker at the point behind the coin on the
    coin-pocket line, scores the shot by total travel, and keeps the first
    cheapest one, then perturbs its angle by a small random amount. */
module CarromAi {
  import opened Protocol
  import opened Geometry

  datatype Shot = Shot(angle: real, power: real, positionX: real)

  /** One coin-pocket pairing: the shot it suggests and its difficulty. */
  datatype Candidate = Candidate(shot: Shot, score: real)

  /** Coin radius plus striker radius: the striker's centre at impact. */
  const ImpactDistance: real := 34.0
  /** The AI shoots from the top baseline. */
  const StrikerY: real := 140.0
  const BaselineMin: real := 100.0
  const BaselineMax: real := 700.0
  const MaxPower: real := 50.0

  function Clamp(x: real, lo: real, hi: real): (y: real)
    requires lo <= hi
    ensures lo <= y <= hi
    ensures lo <= x <= hi ==> y == x
    ensures x < lo ==> y == lo
    ensures x > hi ==> y == hi
  {
    if x < lo then lo else if x > hi then hi else x
  }

  /** The point the striker's centre must reach to send the coin to the pocket. */
  function ImpactPoint(coin: Coin, pocket: (real, real), trig: Trig): (real, real) {
    var cpAngle := trig.atan2(pocket.1 - coin.y, pocket.0 - coin.x);
    (coin.x - trig.cos(cpAngle) * ImpactDistance, coin.y - trig.sin(cpAngle) * ImpactDistance)
  }

  /** The body of the inner forEach: one coin, one pocket. */
  function Evaluate(coin: Coin, pocket: (real, real), trig: Trig): (c: Candidate)
    ensures BaselineMin <= c.shot.positionX <= BaselineMax
    ensures c.shot.power <= MaxPower
    ensures var (ix, iy) := ImpactPoint(coin, pocket, trig);
      var dist := trig.hypot(ix - c.shot.positionX, iy - StrikerY);
      var cpDist := trig.hypot(pocket.0 - coin.x, pocket.1 - coin.y);
      && c.score == cpDist + dist
      && c.shot.power == Min(c.score * 0.18, MaxPower)
      && c.shot.angle == trig.atan2(iy - StrikerY, ix - c.shot.positionX)
      && (BaselineMin <= ix <= BaselineMax ==> c.shot.positionX == ix)
      && (ix < BaselineMin ==> c.shot.positionX == BaselineMin)
      && (ix > BaselineMax ==> c.shot.positionX == BaselineMax)
  {
    var cpDist := trig.hypot(pocket.0 - coin.x, pocket.1 - coin.y);
    var (ix, iy) := ImpactPoint(coin, pocket, trig);
    var strikerX := Clamp(ix, BaselineMin, BaselineMax);
    var dist := trig.hypot(ix - strikerX, iy - StrikerY);
    Candidate(Shot(trig.atan2(iy - StrikerY, ix - strikerX), Min((dist + cpDist) * 0.18, MaxPower), strikerX), cpDist + dist)
  }

  /** The impact point lies exactly ImpactDistance from the coin's centre. */
  lemma ImpactAtContact(coin: Coin, pocket: (real, real), trig: Trig)
    requires UnitCircle(trig)
    ensures var (ix, iy) := ImpactPoint(coin, pocket, trig);
      (ix - coin.x) * (ix - coin.x) + (iy - coin.y) * (iy - coin.y) == ImpactDistance * ImpactDistance
  {
    var a := trig.atan2(pocket.1 - coin.y, pocket.0 - coin.x);
    var co, si := trig.cos(a), trig.sin(a);
    assert co * co + si * si == 1.0;
    var (ix, iy) := ImpactPoint(coin, pocket, trig);
    assert ix - coin.x == -co * ImpactDistance && iy - coin.y == -si * ImpactDistance;
    assert (-co * ImpactDistance) * (-co * ImpactDistance) + (-si * ImpactDistance) * (-si * ImpactDistance)
        == (co * co + si * si) * (ImpactDistance * ImpactDistance);
  }

  /** coins.filter(c => c.active), keeping order. */
  function Targets(coins: seq<Coin>): (ts: seq<Coin>)
    ensures |ts| <= |coins|
    ensures forall c :: c in ts <==> c in coins && c.active
  {
    if |coins| == 0 then []
    else (if coins[0].active then [coins[0]] else []) + Targets(coins[1..])
  }

  lemma {:induction false} TargetsAppend(a: seq<Coin>, b: seq<Coin>)
    ensures Targets(a + b) == Targets(a) + Targets(b)
    decreases |a|
  {
    if |a| > 0 {
      assert (a + b)[1..] == a[1..] + b;
      TargetsAppend(a[1..], b);
    } else {
      assert a + b == b;
    }
  }

  /** Inactive (pocketed) coins play no part in the choice of shot. */
  lemma InactiveCoinIgnored(a: seq<Coin>, c: Coin, b: seq<Coin>)
    requires !c.active
    ensures Targets(a + [c] + b) == Targets(a + b)
  {
    calc {
      Targets(a + [c] + b);
      { TargetsAppend(a + [c], b); }
      Targets(a + [c]) + Targets(b);
      { TargetsAppend(a, [c]); }
      Targets(a) + Targets([c]) + Targets(b);
      { InactiveNotTargeted(c); }
      Targets(a) + Targets(b);
      { TargetsAppend(a, b); }
      Targets(a + b);
    }
  }

  lemma InactiveNotTargeted(c: Coin)
    requires !c.active
    ensures Targets([c]) == []
  {
    assert [c][1..] == [];
  }

  /** Every pairing, coin-major: candidate 4i + p pairs target i with pocket p. */
  function Candidates(targets: seq<Coin>, trig: Trig): (cs: seq<Candidate>)
    ensures |cs| == 4 * |targets|
  {
    seq(4 * |targets|, j requires 0 <= j < 4 * |targets| => Evaluate(targets[j / 4], Pockets[j % 4], trig))
  }

  /** Candidate 4i + p is target i aimed at pocket p. */
  lemma CandidateAt(targets: seq<Coin>, trig: Trig, i: nat, p: nat)
    requires i < |targets| && p < 4
    ensures 4 * i + p < |Candidates(targets, trig)|
    ensures Candidates(targets, trig)[4 * i + p] == Evaluate(targets[i], Pockets[p], trig)
  {
    CoinMajor(i, p);
  }

  lemma CoinMajor(i: nat, p: nat)
    requires p < 4
    ensures (4 * i + p) / 4 == i && (4 * i + p) % 4 == p
  {
  }

  /** k is the first position holding the least score among the first n candidates. */
  predicate FirstCheapest(cs: seq<Candidate>, n: nat, k: nat)
    requires n <= |cs|
  {
    k < n && (forall j :: 0 <= j < n ==> cs[k].score <= cs[j].score)
    && (forall j :: 0 <= j < k ==> cs[j].score > cs[k].score)
  }

  /** The running minimum of the two forEach loops after the first n candidates.
      None stands for bestShot == null with minDifficulty == Infinity, which every
      real score beats; after that the best is replaced only on a strict improvement. */
  function RunningBest(cs: seq<Candidate>, n: nat): (best: Option<nat>)
    requires n <= |cs|
    ensures best.None? <==> n == 0
    ensures best.Some? ==> FirstCheapest(cs, n, best.value)
  {
    if n == 0 then None
    else
      match RunningBest(cs, n - 1)
      case None => Some(n - 1)
      case Some(k) => if cs[n - 1].score < cs[k].score then Some(n - 1) else Some(k)
  }

  /** There is only one first cheapest candidate, so the loop's choice is determined
      by the scores alone. */
  lemma FirstCheapestUnique(cs: seq<Candidate>, n: nat, k1: nat, k2: nat)
    requires n <= |cs| && FirstCheapest(cs, n, k1) && FirstCheapest(cs, n, k2)
    ensures k1 == k2
  {
    assert cs[k1].score <= cs[k2].score && cs[k2].score <= cs[k1].score;
  }

  /** The shot returned when no candidate was recorded. */
  function Fallback(trig: Trig): Shot {
    Shot(trig.pi * 0.5, 20.0, 400.0)
  }

  /** calculateShot: null when no coin is active, otherwise the first cheapest
      candidate with its angle jittered, or the fallback when the loops recorded
      nothing. rand is the draw of Math.random(). */
  function CalculateShot(coins: seq<Coin>, trig: Trig, rand: real): (r: Option<Shot>)
    requires 0.0 <= rand < 1.0
    ensures r.None? <==> forall c :: c in coins ==> !c.active
    ensures r.Some? ==> BaselineMin <= r.value.positionX <= BaselineMax && r.value.power <= MaxPower
  {
    var targets := Targets(coins);
    if |targets| == 0 then None
    else
      var cs := Candidates(targets, trig);
      match RunningBest(cs, |cs|)
      case Some(k) =>
        var best := cs[k].shot;
        Some(best.(angle := best.angle + (rand - 0.5) * 0.05))
      case None => Some(Fallback(trig))
  }

  /** With an active coin the loops always record a candidate, so the result is the
      first cheapest pairing, with its position and power as evaluated and its angle
      off by less than 0.025 radians; the fallback is never reached. */
  lemma ShotIsCheapest(coins: seq<Coin>, trig: Trig, rand: real, k: nat)
    requires 0.0 <= rand < 1.0
    requires var cs := Candidates(Targets(coins), trig); |cs| > 0 && FirstCheapest(cs, |cs|, k)
    ensures CalculateShot(coins, trig, rand).Some?
    ensures var shot := CalculateShot(coins, trig, rand).value;
      var best := Candidates(Targets(coins), trig)[k].shot;
      && shot.positionX == best.positionX && shot.power == best.power
      && -0.025 <= shot.angle - best.angle < 0.025
  {
    var cs := Candidates(Targets(coins), trig);
    FirstCheapestUnique(cs, |cs|, k, RunningBest(cs, |cs|).value);
  }
}
