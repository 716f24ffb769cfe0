/** Reading the CLI's output: bytes arrive in chunks cut anywhere, lines are split
    off as they complete, and each non-blank line becomes events. */
module CliOutput {
  import opened Sequences
  import opened Wrappers

  type Byte = int
  const NEWLINE: Byte := 10

  // ---- Splitting a whole stream at newlines ----------------------------------------

  /** The lines completed so far, and what follows the last newline. */
  function Lines(s: seq<Byte>): seq<seq<Byte>> {
    if s == [] then []
    else if s[|s| - 1] == NEWLINE then Lines(s[..|s| - 1]) + [Rest(s[..|s| - 1])]
    else Lines(s[..|s| - 1])
  }

  function Rest(s: seq<Byte>): seq<Byte> {
    if s == [] || s[|s| - 1] == NEWLINE then [] else Rest(s[..|s| - 1]) + [s[|s| - 1]]
  }

  /** All lines, the last one unterminated and possibly empty. */
  function Pieces(s: seq<Byte>): seq<seq<Byte>> {
    Lines(s) + [Rest(s)]
  }

  function JoinedByNewline(pieces: seq<seq<Byte>>): seq<Byte> {
    if |pieces| == 0 then []
    else if |pieces| == 1 then pieces[0]
    else JoinedByNewline(pieces[..|pieces| - 1]) + [NEWLINE] + pieces[|pieces| - 1]
  }

  /** Pieces is splitting on newline: no piece holds one, and joining undoes it. */
  lemma {:induction false} PiecesSplit(s: seq<Byte>)
    ensures JoinedByNewline(Pieces(s)) == s
    ensures forall i :: 0 <= i < |Pieces(s)| ==> NEWLINE !in Pieces(s)[i]
  {
    if s != [] {
      var front, b := s[..|s| - 1], s[|s| - 1];
      assert s == front + [b];
      PiecesSplit(front);
      var before := Pieces(front);
      if b == NEWLINE {
        assert Pieces(s) == before + [[]];
        assert Pieces(s)[..|before|] == before;
      } else {
        assert Pieces(s)[..|Lines(s)|] == Lines(s) == before[..|Lines(s)|];
        assert Rest(s) == Rest(front) + [b];
        if Lines(s) == [] {
          assert Pieces(s) == [Rest(s)] && before == [Rest(front)];
        }
      }
    }
  }

  lemma LinesSnoc(s: seq<Byte>, b: Byte)
    ensures Lines(s + [b]) == if b == NEWLINE then Lines(s) + [Rest(s)] else Lines(s)
    ensures Rest(s + [b]) == if b == NEWLINE then [] else Rest(s) + [b]
  {
    assert (s + [b])[..|s|] == s;
  }

  /** `s` and then `more` give the lines of `s`, then those of its rest and `more`. */
  ghost predicate Continues(s: seq<Byte>, more: seq<Byte>) {
    Lines(s + more) == Lines(s) + Lines(Rest(s) + more) && Rest(s + more) == Rest(Rest(s) + more)
  }

  lemma ContinuesSnoc(s: seq<Byte>, more: seq<Byte>, b: Byte)
    requires Continues(s, more)
    ensures Continues(s, more + [b])
  {
    hide Lines, Rest;
    var rest := Rest(s) + more;
    LinesSnoc(s + more, b);
    LinesSnoc(rest, b);
    assert s + (more + [b]) == (s + more) + [b];
    assert Rest(s) + (more + [b]) == rest + [b];
    assert Lines(s) + (Lines(rest) + [Rest(rest)]) == (Lines(s) + Lines(rest)) + [Rest(rest)];
  }

  lemma ContinuesNothing(s: seq<Byte>)
    ensures Continues(s, [])
  {
    hide Lines, Rest;
    assert s + [] == s && Rest(s) + [] == Rest(s);
    RestHasNoNewline(s);
    NoNewlineNoLines(Rest(s));
  }

  /** More bytes continue what was left unfinished. */
  lemma {:induction false} LinesContinue(s: seq<Byte>, more: seq<Byte>)
    ensures Continues(s, more)
  {
    hide Continues;
    if more == [] {
      ContinuesNothing(s);
    } else {
      var front := more[..|more| - 1];
      LinesContinue(s, front);
      ContinuesSnoc(s, front, more[|more| - 1]);
      assert more == front + [more[|more| - 1]];
    }
  }

  lemma {:induction false} RestHasNoNewline(s: seq<Byte>)
    ensures NEWLINE !in Rest(s)
  {
    if s != [] && s[|s| - 1] != NEWLINE {
      RestHasNoNewline(s[..|s| - 1]);
    }
  }

  lemma {:induction false} NoNewlineNoLines(s: seq<Byte>)
    requires NEWLINE !in s
    ensures Lines(s) == [] && Rest(s) == s
  {
    if s != [] {
      NoNewlineNoLines(s[..|s| - 1]);
      assert s == s[..|s| - 1] + [s[|s| - 1]];
    }
  }

  lemma LineThenTail(line: seq<Byte>, tail: seq<Byte>)
    requires Lines(line) == [] && Rest(line) == line
    ensures Lines((line + [NEWLINE]) + tail) == [line] + Lines(tail)
    ensures Rest((line + [NEWLINE]) + tail) == Rest(tail)
  {
    LinesSnoc(line, NEWLINE);
    hide Lines, Rest;
    LinesContinue(line + [NEWLINE], tail);
    assert [] + [line] == [line];
    assert [] + tail == tail;
  }

  /** Cutting at the first newline. */
  lemma FirstLine(s: seq<Byte>, pos: nat)
    requires pos < |s| && s[pos] == NEWLINE && NEWLINE !in s[..pos]
    ensures Lines(s) == [s[..pos]] + Lines(s[pos + 1..]) && Rest(s) == Rest(s[pos + 1..])
  {
    hide Lines, Rest;
    var line, tail := s[..pos], s[pos + 1..];
    NoNewlineNoLines(line);
    LineThenTail(line, tail);
    assert s == (line + [NEWLINE]) + tail;
  }

  // ---- Handling lines --------------------------------------------------------------

  /** A line parsed as JSON: an object with the session id it reveals, if any, and
      whether its own type is "session_info"; another JSON value; or not JSON. */
  datatype Parsed = Object(sessionId: Option<string>, typedSessionInfo: bool) | OtherJson | NotJson

  datatype Event = SessionInfo(id: string) | FromCli(line: string) | Raw(line: string)

  /** The run so far. A JSON line that is not an object ends it with an exception. */
  datatype Run = Run(events: seq<Event>, extracted: bool, crashed: bool)

  const START := Run([], false, false)

  function Handle(r: Run, line: string, parse: string -> Parsed): Run {
    if r.crashed then r
    else
      match parse(line)
      case NotJson => r.(events := r.events + [Raw(line)])
      case OtherJson => r.(crashed := true)
      case Object(id, typed) =>
        var info := if !r.extracted && id.Some? then [SessionInfo(id.value)] else [];
        Run(r.events + info + [FromCli(line)], r.extracted || info != [] || typed, false)
  }

  /** Lines that are blank once decoded and trimmed are skipped. */
  function HandlePiece(r: Run, piece: seq<Byte>, decode: seq<Byte> -> string, parse: string -> Parsed): Run {
    var line := decode(piece);
    if line == "" then r else Handle(r, line, parse)
  }

  function HandlePieces(r: Run, pieces: seq<seq<Byte>>, decode: seq<Byte> -> string, parse: string -> Parsed): Run {
    if pieces == [] then r
    else HandlePiece(HandlePieces(r, pieces[..|pieces| - 1], decode, parse), pieces[|pieces| - 1], decode, parse)
  }

  lemma PiecesSnoc(r: Run, pieces: seq<seq<Byte>>, p: seq<Byte>, decode: seq<Byte> -> string, parse: string -> Parsed)
    ensures HandlePieces(r, pieces + [p], decode, parse)
         == HandlePiece(HandlePieces(r, pieces, decode, parse), p, decode, parse)
  {
    assert (pieces + [p])[..|pieces|] == pieces;
  }

  /** Everything read before the first empty chunk, which means end of file. */
  function Received(chunks: seq<seq<Byte>>): seq<Byte> {
    if chunks == [] || chunks[0] == [] then [] else chunks[0] + Received(chunks[1..])
  }

  method FindNewline(buffer: seq<Byte>) returns (pos: int)
    ensures -1 <= pos < |buffer|
    ensures pos == -1 ==> NEWLINE !in buffer
    ensures pos >= 0 ==> buffer[pos] == NEWLINE && NEWLINE !in buffer[..pos]
  {
    for i := 0 to |buffer|
      invariant NEWLINE !in buffer[..i]
    {
      if buffer[i] == NEWLINE {
        return i;
      }
    }
    pos := -1;
  }

  /** The inner loop: handle the lines the buffer completes and keep the rest. */
  method DrainBuffer(r: Run, buffer: seq<Byte>, decode: seq<Byte> -> string, parse: string -> Parsed, ghost before: seq<seq<Byte>>)
    returns (r': Run, rest: seq<Byte>)
    requires r == HandlePieces(START, before, decode, parse)
    ensures r' == HandlePieces(START, before + Lines(buffer), decode, parse)
    ensures rest == Rest(buffer)
  {
    r', rest := r, buffer;
    ghost var handled := before;
    var pos := FindNewline(rest);
    while pos != -1
      invariant -1 <= pos < |rest|
      invariant pos == -1 ==> NEWLINE !in rest
      invariant pos >= 0 ==> rest[pos] == NEWLINE && NEWLINE !in rest[..pos]
      invariant r' == HandlePieces(START, handled, decode, parse)
      invariant handled + Lines(rest) == before + Lines(buffer)
      invariant Rest(rest) == Rest(buffer)
      decreases |rest|
    {
      FirstLine(rest, pos);
      var line := rest[..pos];
      PiecesSnoc(START, handled, line, decode, parse);
      r' := HandlePiece(r', line, decode, parse);
      assert handled + ([line] + Lines(rest[pos + 1..])) == (handled + [line]) + Lines(rest[pos + 1..]);
      handled := handled + [line];
      rest := rest[pos + 1..];
      pos := FindNewline(rest);
    }
    NoNewlineNoLines(rest);
    assert handled + [] == handled;
  }

  /** The reading loop. However the output is cut into chunks, what is handled is the
      pieces of the whole output, the unterminated last line included. */
  method ReadOutput(chunks: seq<seq<Byte>>, decode: seq<Byte> -> string, parse: string -> Parsed) returns (r: Run)
    requires decode([]) == ""
    ensures r == HandlePieces(START, Pieces(Received(chunks)), decode, parse)
  {
    hide HandlePieces, HandlePiece, Lines, Rest;
    r := START;
    var buffer: seq<Byte> := [];
    ghost var stream: seq<Byte> := [];
    NothingYet(decode, parse);
    var i := 0;
    assert chunks[0..] == chunks;
    while i < |chunks| && chunks[i] != []
      invariant 0 <= i <= |chunks|
      invariant Received(chunks) == stream + Received(chunks[i..])
      invariant r == HandlePieces(START, Lines(stream), decode, parse)
      invariant buffer == Rest(stream)
    {
      LinesContinue(stream, chunks[i]);
      r, buffer := DrainBuffer(r, buffer + chunks[i], decode, parse, Lines(stream));
      stream := stream + chunks[i];
      assert chunks[i..][1..] == chunks[i + 1..];
      i := i + 1;
    }
    assert Received(chunks) == stream;
    PiecesSnoc(START, Lines(stream), Rest(stream), decode, parse);
    if buffer != [] {
      r := HandlePiece(r, buffer, decode, parse);
    } else {
      BlankPiece(r, decode, parse);
    }
  }

  lemma NothingYet(decode: seq<Byte> -> string, parse: string -> Parsed)
    ensures Lines([]) == [] && Rest([]) == [] && HandlePieces(START, [], decode, parse) == START
  {
  }

  lemma BlankPiece(r: Run, decode: seq<Byte> -> string, parse: string -> Parsed)
    requires decode([]) == ""
    ensures HandlePiece(r, [], decode, parse) == r
  {
  }

  // ---- What a run yields -------------------------------------------------------------

  function SessionInfos(events: seq<Event>): nat {
    if events == [] then 0
    else SessionInfos(events[..|events| - 1]) + (if events[|events| - 1].SessionInfo? then 1 else 0)
  }

  lemma SessionInfosSnoc(events: seq<Event>, e: Event)
    ensures SessionInfos(events + [e]) == SessionInfos(events) + (if e.SessionInfo? then 1 else 0)
  {
    assert (events + [e])[..|events|] == events;
  }

  /** At most one synthetic session_info event per run. */
  lemma {:induction false} AtMostOneSessionInfo(pieces: seq<seq<Byte>>, decode: seq<Byte> -> string, parse: string -> Parsed)
    ensures var r := HandlePieces(START, pieces, decode, parse);
            SessionInfos(r.events) <= (if r.extracted then 1 else 0)
  {
    if pieces != [] {
      var r := HandlePieces(START, pieces[..|pieces| - 1], decode, parse);
      AtMostOneSessionInfo(pieces[..|pieces| - 1], decode, parse);
      var line := decode(pieces[|pieces| - 1]);
      if line != "" && !r.crashed {
        SessionInfosSnoc(r.events, Raw(line));
        SessionInfosSnoc(r.events, FromCli(line));
        match parse(line)
        case Object(id, _) =>
          if !r.extracted && id.Some? {
            SessionInfosSnoc(r.events, SessionInfo(id.value));
            SessionInfosSnoc(r.events + [SessionInfo(id.value)], FromCli(line));
          } else {
            assert r.events + [] + [FromCli(line)] == r.events + [FromCli(line)];
          }
        case _ =>
      }
    }
  }

  /** The non-blank lines of a stream. */
  function Texts(pieces: seq<seq<Byte>>, decode: seq<Byte> -> string): seq<string> {
    if pieces == [] then []
    else Texts(pieces[..|pieces| - 1], decode) + (if decode(pieces[|pieces| - 1]) != "" then [decode(pieces[|pieces| - 1])] else [])
  }

  /** How a line is passed on. */
  function Passed(line: string, parse: string -> Parsed): Event {
    if parse(line).NotJson? then Raw(line) else FromCli(line)
  }

  function AllPassed(lines: seq<string>, parse: string -> Parsed): (events: seq<Event>)
    ensures |events| == |lines| && forall i :: 0 <= i < |lines| ==> events[i] == Passed(lines[i], parse)
  {
    seq(|lines|, i requires 0 <= i < |lines| => Passed(lines[i], parse))
  }

  /** After such a line no session is announced any more. */
  predicate Settles(p: Parsed) {
    p.Object? && (p.sessionId.Some? || p.typedSessionInfo)
  }

  ghost predicate Settled(lines: seq<string>, parse: string -> Parsed) {
    exists j :: 0 <= j < |lines| && Settles(parse(lines[j]))
  }

  /** Line k is the first to reveal a session id, and none before it is a session_info of its own. */
  ghost predicate FirstReveal(lines: seq<string>, k: int, parse: string -> Parsed) {
    && 0 <= k < |lines| && parse(lines[k]).Object? && parse(lines[k]).sessionId.Some?
    && !Settled(lines[..k], parse)
  }

  /** The caller gets the lines as they are, and just before the first that reveals a
      session id the announcement of that id. */
  ghost predicate Announces(events: seq<Event>, lines: seq<string>, parse: string -> Parsed) {
    && (forall k :: FirstReveal(lines, k, parse) ==>
          events == AllPassed(lines[..k], parse) + [SessionInfo(parse(lines[k]).sessionId.value)] + AllPassed(lines[k..], parse))
    && ((forall k :: !FirstReveal(lines, k, parse)) ==> events == AllPassed(lines, parse))
  }

  lemma SettledSnoc(lines: seq<string>, line: string, parse: string -> Parsed)
    ensures Settled(lines + [line], parse) <==> Settled(lines, parse) || Settles(parse(line))
  {
    var all := lines + [line];
    if j :| 0 <= j < |lines| && Settles(parse(lines[j])) {
      assert Settles(parse(all[j]));
    }
    assert all[|lines|] == line;
  }

  lemma RevealSnoc(lines: seq<string>, line: string, parse: string -> Parsed)
    ensures forall k :: k < |lines| ==> (FirstReveal(lines + [line], k, parse) <==> FirstReveal(lines, k, parse))
    ensures FirstReveal(lines + [line], |lines|, parse)
            <==> !Settled(lines, parse) && parse(line).Object? && parse(line).sessionId.Some?
    ensures forall k :: FirstReveal(lines + [line], k, parse) ==> 0 <= k <= |lines|
  {
    hide Settled;
    var all := lines + [line];
    assert all[..|lines|] == lines;
    forall k | 0 <= k < |lines|
      ensures all[..k] == lines[..k] && all[k] == lines[k]
    {
    }
  }

  lemma RevealSettles(lines: seq<string>, k: int, parse: string -> Parsed)
    requires FirstReveal(lines, k, parse)
    ensures Settled(lines, parse)
  {
    assert Settles(parse(lines[k]));
  }

  lemma AnnouncesNow(events: seq<Event>, lines: seq<string>, line: string, parse: string -> Parsed)
    requires Announces(events, lines, parse) && !Settled(lines, parse)
    requires parse(line).Object? && parse(line).sessionId.Some?
    ensures Announces(events + [SessionInfo(parse(line).sessionId.value), Passed(line, parse)], lines + [line], parse)
  {
    var all, n := lines + [line], |lines|;
    RevealSnoc(lines, line, parse);
    forall k
      ensures !FirstReveal(lines, k, parse)
    {
      if FirstReveal(lines, k, parse) {
        RevealSettles(lines, k, parse);
      }
    }
    assert forall k :: FirstReveal(all, k, parse) <==> k == n by {
      assert FirstReveal(all, n, parse);
    }
    hide FirstReveal, Settled;
    assert events == AllPassed(lines, parse);
    assert all[..n] == lines && all[n..] == [line] && AllPassed([line], parse) == [Passed(line, parse)];
    hide AllPassed, Passed;
    assert AllPassed(lines, parse) + [SessionInfo(parse(line).sessionId.value)] + [Passed(line, parse)]
        == AllPassed(lines, parse) + [SessionInfo(parse(line).sessionId.value), Passed(line, parse)];
  }

  lemma PassedSnoc(lines: seq<string>, line: string, k: nat, parse: string -> Parsed)
    requires k <= |lines|
    ensures AllPassed((lines + [line])[k..], parse) == AllPassed(lines[k..], parse) + [Passed(line, parse)]
    ensures (lines + [line])[..k] == lines[..k]
  {
    assert (lines + [line])[k..] == lines[k..] + [line];
  }

  lemma AnnouncesMore(events: seq<Event>, lines: seq<string>, line: string, parse: string -> Parsed)
    requires Announces(events, lines, parse) && !FirstReveal(lines + [line], |lines|, parse)
    ensures Announces(events + [Passed(line, parse)], lines + [line], parse)
  {
    var all, n := lines + [line], |lines|;
    RevealSnoc(lines, line, parse);
    assert forall k :: FirstReveal(lines, k, parse) ==> 0 <= k < n;
    assert forall k :: FirstReveal(all, k, parse) <==> FirstReveal(lines, k, parse);
    PassedSnoc(lines, line, 0, parse);
    assert all[0..] == all && lines[0..] == lines;
    hide Settled, FirstReveal, AllPassed, Passed;
    forall k | FirstReveal(all, k, parse)
      ensures events + [Passed(line, parse)]
           == AllPassed(all[..k], parse) + [SessionInfo(parse(all[k]).sessionId.value)] + AllPassed(all[k..], parse)
    {
      PassedSnoc(lines, line, k, parse);
      assert all[k] == lines[k];
      ConcatAssociative(AllPassed(lines[..k], parse) + [SessionInfo(parse(lines[k]).sessionId.value)],
                        AllPassed(lines[k..], parse), [Passed(line, parse)]);
    }
  }

  lemma AnnouncesSnoc(r: Run, lines: seq<string>, line: string, parse: string -> Parsed)
    requires !r.crashed && !parse(line).OtherJson?
    requires Announces(r.events, lines, parse) && (r.extracted <==> Settled(lines, parse))
    ensures var r' := Handle(r, line, parse);
            !r'.crashed && Announces(r'.events, lines + [line], parse) && (r'.extracted <==> Settled(lines + [line], parse))
  {
    SettledSnoc(lines, line, parse);
    RevealSnoc(lines, line, parse);
    hide Announces, FirstReveal, Settled;
    if !r.extracted && parse(line).Object? && parse(line).sessionId.Some? {
      AnnouncesNow(r.events, lines, line, parse);
      var info := SessionInfo(parse(line).sessionId.value);
      assert r.events + [info] + [Passed(line, parse)] == r.events + [info, Passed(line, parse)];
    } else {
      AnnouncesMore(r.events, lines, line, parse);
      assert r.events + [] + [Passed(line, parse)] == r.events + [Passed(line, parse)];
    }
  }

  /** Line n is the first JSON value that is not an object. */
  ghost predicate FirstOther(texts: seq<string>, n: nat, parse: string -> Parsed) {
    && n < |texts| && parse(texts[n]).OtherJson?
    && forall j :: 0 <= j < n ==> !parse(texts[j]).OtherJson?
  }

  /** The caller got every non-blank line, in order, up to the first JSON value that is
      not an object, all of them exactly when there is none, and the announcement. */
  ghost predicate Yields(r: Run, texts: seq<string>, parse: string -> Parsed) {
    && (r.crashed <==> exists i :: 0 <= i < |texts| && parse(texts[i]).OtherJson?)
    && (!r.crashed ==> Announces(r.events, texts, parse) && (r.extracted <==> Settled(texts, parse)))
    && (r.crashed ==> exists n: nat :: FirstOther(texts, n, parse) && Announces(r.events, texts[..n], parse))
  }

  lemma YieldsOneMore(r: Run, texts: seq<string>, line: string, parse: string -> Parsed)
    requires Yields(r, texts, parse)
    ensures Yields(Handle(r, line, parse), texts + [line], parse)
  {
    var all := texts + [line];
    assert all[|texts|] == line && all[..|texts|] == texts;
    assert forall i :: 0 <= i < |texts| ==> all[i] == texts[i];
    hide Announces, Settled;
    if r.crashed {
      var n: nat :| FirstOther(texts, n, parse) && Announces(r.events, texts[..n], parse);
      assert FirstOther(all, n, parse) && all[..n] == texts[..n];
    } else if parse(line).OtherJson? {
      assert FirstOther(all, |texts|, parse);
    } else {
      AnnouncesSnoc(r, texts, line, parse);
    }
  }

  lemma NothingYielded(parse: string -> Parsed)
    ensures Yields(START, [], parse)
  {
  }

  lemma {:induction false} YieldsLines(pieces: seq<seq<Byte>>, decode: seq<Byte> -> string, parse: string -> Parsed)
    ensures Yields(HandlePieces(START, pieces, decode, parse), Texts(pieces, decode), parse)
  {
    if pieces != [] {
      var front, line := pieces[..|pieces| - 1], decode(pieces[|pieces| - 1]);
      YieldsLines(front, decode, parse);
      if line != "" {
        hide Yields, Handle;
        YieldsOneMore(HandlePieces(START, front, decode, parse), Texts(front, decode), line, parse);
      } else {
        assert Texts(front, decode) + [] == Texts(front, decode);
      }
    } else {
      NothingYielded(parse);
    }
  }

  function NonBlank(decode: seq<Byte> -> string): seq<Byte> -> bool {
    piece => decode(piece) != ""
  }

  lemma TextsSnoc(pieces: seq<seq<Byte>>, piece: seq<Byte>, decode: seq<Byte> -> string)
    ensures Texts(pieces + [piece], decode) ==
            if NonBlank(decode)(piece) then Texts(pieces, decode) + [decode(piece)] else Texts(pieces, decode)
  {
    assert (pieces + [piece])[..|pieces|] == pieces;
    assert Texts(pieces, decode) + [] == Texts(pieces, decode);
  }

  /** The texts are those of the pieces that are not blank, in order. */
  lemma {:induction false} TextsInOrder(pieces: seq<seq<Byte>>, decode: seq<Byte> -> string) returns (ks: seq<nat>)
    ensures Places(ks, pieces, NonBlank(decode)) && |ks| == |Texts(pieces, decode)|
    ensures forall n :: 0 <= n < |ks| ==> Texts(pieces, decode)[n] == decode(pieces[ks[n]])
  {
    if pieces == [] {
      ks := [];
    } else {
      var front, piece := pieces[..|pieces| - 1], pieces[|pieces| - 1];
      ks := TextsInOrder(front, decode);
      SplitLast(pieces);
      PlacesSnoc(ks, front, piece, NonBlank(decode));
      TextsSnoc(front, piece, decode);
      KnownPlaces(ks, front, NonBlank(decode));
      hide Texts, Places, NonBlank;
      if NonBlank(decode)(piece) {
        ks := ks + [|front|];
      }
    }
  }

  lemma PiecesOfTwo(a: Byte, b: Byte)
    requires a != NEWLINE && b != NEWLINE
    ensures Pieces([a, NEWLINE, b]) == [[a], [b]]
  {
    var s := [a, NEWLINE, b];
    assert NEWLINE !in s[..1];
    FirstLine(s, 1);
    assert s[..1] == [a] && s[2..] == [b];
    NoNewlineNoLines([b]);
  }

  lemma HandleTwo(r: Run, p: seq<Byte>, q: seq<Byte>, decode: seq<Byte> -> string, parse: string -> Parsed)
    ensures HandlePieces(r, [p, q], decode, parse) == HandlePiece(HandlePiece(r, p, decode, parse), q, decode, parse)
  {
    hide HandlePiece;
    PiecesSnoc(r, [], p, decode, parse);
    PiecesSnoc(r, [p], q, decode, parse);
    assert [] + [p] == [p] && [p] + [q] == [p, q];
  }

  /** Two lines, the first of them JSON but no object: nothing of the second arrives. */
  lemma OtherJsonLosesNext(a: Byte, b: Byte, decode: seq<Byte> -> string, parse: string -> Parsed)
    requires a != NEWLINE && b != NEWLINE && decode([a]) != "" && parse(decode([a])).OtherJson?
    ensures HandlePieces(START, Pieces([a, NEWLINE, b]), decode, parse) == Run([], false, true)
  {
    PiecesOfTwo(a, b);
    HandleTwo(START, [a], [b], decode, parse);
  }
}
