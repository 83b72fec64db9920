/** The Stockfish wrapper of server/ai/chessEngine.js, as far as it is logic: the
    readiness gate, the commands getBestMove posts, the search depth it asks for,
    and how a UCI "bestmove" reply (section "Engine to GUI" of the Universal Chess
    Interface protocol) becomes a move. The engine itself is outside the model. */
module ChessAi {
  import opened Protocol
  import opened Text

  /** The wrapper's state. pending counts the getBestMove calls still waiting: each
      call installs a temporary onmessage handler that remembers the one before it,
      so the handlers form a stack whose bottom is the 'readyok' handler. */
  datatype Engine = Engine(difficulty: int, present: bool, ready: bool, pending: nat)

  datatype BestMove = BestMove(from: string, to: string, promotion: Option<char>)

  /** A getBestMove call: resolved at once with null, or the commands it posts. */
  datatype Request = NotReady | Posted(commands: seq<string>)

  /** A temporary handler resolving its promise: which call (0 is the first one still
      waiting) and with what. */
  datatype Resolution = Resolution(call: nat, move: Option<BestMove>)

  /** Math.min(Math.max(1, difficulty), 15). */
  function SearchDepth(difficulty: int): (depth: int)
    ensures 1 <= depth <= 15
    ensures 1 <= difficulty <= 15 ==> depth == difficulty
    ensures difficulty < 1 ==> depth == 1
    ensures difficulty > 15 ==> depth == 15
  {
    var atLeastOne := if difficulty >= 1 then difficulty else 1;
    if atLeastOne <= 15 then atLeastOne else 15
  }

  /** getBestMove(fen) up to the promise: without a ready engine nothing is posted. */
  function GetBestMove(e: Engine, fen: string): (r: (Engine, Request))
    ensures !e.present || !e.ready <==> r == (e, NotReady)
    ensures r.1.Posted? ==>
              r.0 == e.(pending := e.pending + 1) && |r.1.commands| == 2
              && r.1.commands[0] == "position fen " + fen && StartsWith(r.1.commands[1], "go depth ")
  {
    if !e.present || !e.ready then (e, NotReady)
    else (e.(pending := e.pending + 1), Posted(["position fen " + fen, "go depth " + NatToString(SearchDepth(e.difficulty) as nat)]))
  }

  /** The depth in the posted command is the clamped difficulty, in decimal. */
  lemma PostedDepth(e: Engine, fen: string)
    requires e.present && e.ready
    ensures GetBestMove(e, fen).1.commands[1] == "go depth " + NatToString(SearchDepth(e.difficulty) as nat)
    ensures 1 <= |GetBestMove(e, fen).1.commands[1]| - |"go depth "| <= 2
  {
    var d := SearchDepth(e.difficulty) as nat;
    if d >= 10 {
      assert NatToString(d) == NatToString(1) + [DigitChar(d % 10)];
    }
  }

  /** The token of a bestmove line: from, to and the optional promotion letter. */
  function Decode(m: string): (mv: BestMove)
    ensures |m| >= 4 ==> mv.from == m[..2] && mv.to == m[2..4]
    ensures mv.promotion.Some? <==> |m| > 4
  {
    BestMove(Substring(m, 0, 2), Substring(m, 2, 4), if |m| > 4 then Some(m[4]) else None)
  }

  /** Writes a move back as a UCI token. */
  function Encode(mv: BestMove): string {
    mv.from + mv.to + (if mv.promotion.Some? then [mv.promotion.value] else [])
  }

  /** The parsed pieces rebuild a four- or five-letter token exactly. */
  lemma DecodeRoundTrip(m: string)
    requires |m| == 4 || |m| == 5
    ensures Encode(Decode(m)) == m
  {
    if |m| == 5 {
      assert m == m[..2] + m[2..4] + [m[4]];
    } else {
      assert m == m[..2] + m[2..4];
    }
  }

  /** The body of the temporary handler for a line that starts with "bestmove": the
      second space-separated token, unless it is absent, empty or "(none)". */
  function ParseBestMove(line: string): (mv: Option<BestMove>)
    ensures mv.Some? <==> |Split(line, ' ')| > 1 && Split(line, ' ')[1] != "" && Split(line, ' ')[1] != "(none)"
    ensures mv.Some? ==> mv.value == Decode(Split(line, ' ')[1])
  {
    var parts := Split(line, ' ');
    if |parts| > 1 && parts[1] != "" && parts[1] != "(none)" then Some(Decode(parts[1])) else None
  }

  /** A well-formed reply "bestmove <m> [ponder <p>]" yields the move m. */
  lemma ParseWellFormedReply(m: string, rest: seq<string>)
    requires m != "" && m != "(none)" && ' ' !in m
    requires forall k :: 0 <= k < |rest| ==> ' ' !in rest[k]
    ensures ParseBestMove(Join(["bestmove", m] + rest, ' ')) == Some(Decode(m))
  {
    KeywordsHaveNoSpace();
    SecondToken("bestmove", m, rest);
    ParseSecond(Join(["bestmove", m] + rest, ' '), m);
  }

  lemma KeywordsHaveNoSpace()
    ensures ' ' !in "bestmove" && ' ' !in "(none)"
  {
    assert "bestmove" == ['b', 'e', 's', 't', 'm', 'o', 'v', 'e'];
    assert "(none)" == ['(', 'n', 'o', 'n', 'e', ')'];
  }

  /** A line whose second token is m parses to m, unless m is empty or "(none)". */
  lemma ParseSecond(line: string, m: string)
    requires |Split(line, ' ')| >= 2 && Split(line, ' ')[1] == m
    ensures ParseBestMove(line) == if m == "" || m == "(none)" then None else Some(Decode(m))
  {
  }

  /** Splitting a joined line gives back its second token. */
  lemma SecondToken(w: string, m: string, rest: seq<string>)
    requires ' ' !in w && ' ' !in m
    requires forall k :: 0 <= k < |rest| ==> ' ' !in rest[k]
    ensures |Split(Join([w, m] + rest, ' '), ' ')| >= 2 && Split(Join([w, m] + rest, ' '), ' ')[1] == m
  {
    var parts := [w, m] + rest;
    forall k | 0 <= k < |parts| ensures ' ' !in parts[k] {
      if k >= 2 {
        assert parts[k] == rest[k - 2];
      }
    }
    SplitJoin(parts, ' ');
  }

  /** "bestmove (none)", the reply when there is no legal move, yields null. */
  lemma NoneReplyIsNull(rest: seq<string>)
    requires forall k :: 0 <= k < |rest| ==> ' ' !in rest[k]
    ensures ParseBestMove(Join(["bestmove", "(none)"] + rest, ' ')).None?
  {
    KeywordsHaveNoSpace();
    SecondToken("bestmove", "(none)", rest);
    ParseSecond(Join(["bestmove", "(none)"] + rest, ' '), "(none)");
  }

  /** One line from the engine, handled by whichever handler is installed. */
  function OnLine(e: Engine, line: string): (r: (Engine, Option<Resolution>))
    ensures r.0.present == e.present && r.0.difficulty == e.difficulty
    ensures e.pending > 0 && StartsWith(line, "bestmove") ==>
      r == (e.(pending := e.pending - 1), Some(Resolution(e.pending - 1, ParseBestMove(line))))
    ensures e.pending > 0 && !StartsWith(line, "bestmove") ==> r == (e, None)
    ensures e.pending == 0 ==> r.1.None? && r.0.pending == 0 && (r.0.ready <==> e.ready || line == "readyok")
  {
    if e.pending > 0 then
      if StartsWith(line, "bestmove") then (e.(pending := e.pending - 1), Some(Resolution(e.pending - 1, ParseBestMove(line))))
      else (e, None)
    else if line == "readyok" then (e.(ready := true), None)
    else (e, None)
  }

  /** A bestmove reply to the only waiting call resolves it and puts the original
      'readyok' handler back, so a later 'readyok' is heeded again. */
  lemma HandlerRestored(e: Engine, fen: string, m: string)
    requires e.present && e.ready && e.pending == 0
    requires m != "" && m != "(none)" && ' ' !in m
    ensures var (e1, _) := GetBestMove(e, fen);
      var (e2, res) := OnLine(e1, "bestmove " + m);
      e2 == e && res == Some(Resolution(0, Some(Decode(m))))
  {
    assert "bestmove " + m == Join(["bestmove", m], ' ');
    ParseWellFormedReply(m, []);
  }
}
