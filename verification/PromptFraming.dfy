/** The framing of a replayed transcript in a prompt (apps/advisor-bridge/src/ws-server.ts). */
module PromptFraming {
  import opened Wrappers
  import opened AdvisorHistory

  // ---- Splitting, joining, replacing ----

  /** `s.split(d)` for a nonempty separator: the leftmost occurrence is taken first. */
  function Split(s: string, d: string): (r: seq<string>)
    requires d != ""
    ensures r != []
    decreases |s|
  {
    if s == "" then [""]
    else if d <= s then [""] + Split(s[|d|..], d)
    else
      var r := Split(s[1..], d);
      [[s[0]] + r[0]] + r[1..]
  }

  function Join(parts: seq<string>, d: string): string
    requires parts != []
    decreases |parts|
  {
    if |parts| == 1 then parts[0] else parts[0] + d + Join(parts[1..], d)
  }

  function Replaced(s: string, d: string, r: string): string
    requires d != ""
    decreases |s|
  {
    if s == "" then ""
    else if d <= s then r + Replaced(s[|d|..], d, r)
    else [s[0]] + Replaced(s[1..], d, r)
  }

  lemma JoinMore(x: string, rest: seq<string>, d: string)
    requires rest != []
    ensures Join([x] + rest, d) == x + d + Join(rest, d)
  {
    assert ([x] + rest)[1..] == rest;
  }

  lemma JoinFirst(parts: seq<string>, c: char, d: string)
    requires parts != []
    ensures Join([[c] + parts[0]] + parts[1..], d) == [c] + Join(parts, d)
  {
  }

  lemma SplitStep(s: string, d: string)
    requires d != "" && s != ""
    ensures Split(s, d) == if d <= s then [""] + Split(s[|d|..], d)
                           else [[s[0]] + Split(s[1..], d)[0]] + Split(s[1..], d)[1..]
  {
  }

  /** `s.split(d).join(r)` replaces every occurrence of `d`. */
  lemma {:induction false} SplitJoinReplaces(s: string, d: string, r: string)
    requires d != ""
    ensures Join(Split(s, d), r) == Replaced(s, d, r)
    decreases |s|
  {
    if s != "" {
      SplitStep(s, d);
      hide Split, Join;
      if d <= s {
        SplitJoinReplaces(s[|d|..], d, r);
        JoinMore("", Split(s[|d|..], d), r);
        assert "" + r + Join(Split(s[|d|..], d), r) == r + Join(Split(s[|d|..], d), r);
      } else {
        SplitJoinReplaces(s[1..], d, r);
        JoinFirst(Split(s[1..], d), s[0], r);
      }
    }
  }

  // ---- Delimiters ----

  ghost predicate At(s: string, i: nat, d: string) {
    i + |d| <= |s| && s[i..i + |d|] == d
  }

  ghost predicate Contains(s: string, d: string) {
    exists i: nat :: At(s, i, d)
  }

  /** A closing tag: the only `<` is at its front, and a `/` comes next. */
  ghost predicate Closing(d: string) {
    |d| >= 2 && d[0] == '<' && d[1] == '/' && forall i :: 1 <= i < |d| ==> d[i] != '<'
  }

  /** What a closing tag is replaced with. */
  ghost predicate Neutral(r: string) {
    |r| >= 2 && r[0] == '<' && r[1] != '/' && forall i :: 1 <= i < |r| ==> r[i] != '<'
  }

  /** No occurrence of `d` begins within `h`, whatever comes after it. */
  ghost predicate Blocks(h: string, d: string)
    requires d != ""
  {
    forall i :: 0 <= i < |h| ==> h[i] != d[0] || exists j :: 0 < j < |d| && i + j < |h| && h[i + j] != d[j]
  }

  lemma AtMember(s: string, i: nat, d: string, j: nat)
    requires j < |d|
    ensures At(s, i, d) ==> s[i + j] == d[j]
  {
    if At(s, i, d) { assert s[i..i + |d|][j] == s[i + j]; }
  }

  lemma AtShift(a: string, b: string, i: nat, d: string)
    ensures At(a + b, |a| + i, d) <==> At(b, i, d)
  {
    if |a| + i + |d| <= |a + b| { assert (a + b)[|a| + i..|a| + i + |d|] == b[i..i + |d|]; }
  }

  lemma AtWithin(a: string, b: string, i: nat, d: string)
    requires i + |d| <= |a|
    ensures At(a + b, i, d) <==> At(a, i, d)
  {
    assert (a + b)[i..i + |d|] == a[i..i + |d|];
  }

  lemma BlockedAt(h: string, b: string, d: string, i: nat)
    requires d != "" && Blocks(h, d) && i < |h|
    ensures !At(h + b, i, d)
  {
    if h[i] != d[0] {
      AtMember(h + b, i, d, 0);
    } else {
      var j :| 0 < j < |d| && i + j < |h| && h[i + j] != d[j];
      AtMember(h + b, i, d, j);
    }
  }

  lemma BlockedPrefix(h: string, b: string, d: string)
    requires d != "" && Blocks(h, d) && !Contains(b, d)
    ensures !Contains(h + b, d)
  {
    hide Blocks, At;
    forall i: nat ensures !At(h + b, i, d) {
      if i < |h| { BlockedAt(h, b, d, i); } else { AtShift(h, b, i - |h|, d); }
    }
  }

  /** A closing tag cannot begin in `a` and end in `b` when `b` begins with `<`. */
  lemma NoStraddle(a: string, b: string, d: string)
    requires Closing(d) && !Contains(a, d) && !Contains(b, d) && (b != "" ==> b[0] == '<')
    ensures !Contains(a + b, d)
  {
    forall i: nat | At(a + b, i, d) ensures false {
      if i + |d| <= |a| {
        AtWithin(a, b, i, d);
      } else if i < |a| {
        AtMember(a + b, i, d, |a| - i);
      } else {
        AtShift(a, b, i - |a|, d);
      }
    }
  }

  // ---- Replacement ----

  /** A stretch without `<` at the front of the result was there before. */
  lemma {:induction false} PrefixWasThere(s: string, d: string, r: string, p: string)
    requires d != "" && r != "" && r[0] == '<' && p <= Replaced(s, d, r) && forall i :: 0 <= i < |p| ==> p[i] != '<'
    ensures p <= s
    decreases |s|
  {
    if p != "" && s != "" {
      assert p[0] == Replaced(s, d, r)[0];
      if d <= s {
        assert false;
      } else {
        assert p[1..] <= Replaced(s, d, r)[1..] == Replaced(s[1..], d, r);
        PrefixWasThere(s[1..], d, r, p[1..]);
      }
    }
  }

  lemma NeutralBlocks(r: string, e: string)
    requires Neutral(r) && Closing(e)
    ensures Blocks(r, e)
  {
    forall i | 0 <= i < |r| ensures r[i] != e[0] || exists j :: 0 < j < |e| && i + j < |r| && r[i + j] != e[j] {
      if i == 0 { assert r[0 + 1] != e[1]; }
    }
  }

  lemma ContainsTail(s: string, n: nat, e: string)
    requires n <= |s| && Contains(s[n..], e)
    ensures Contains(s, e)
  {
    var i: nat :| At(s[n..], i, e);
    AtShift(s[..n], s[n..], i, e);
    assert s[..n] + s[n..] == s;
    assert At(s, n + i, e);
  }

  lemma FrontIsAt(s: string, e: string)
    ensures e <= s <==> At(s, 0, e)
  {
  }

  lemma KeptCharacter(s: string, d: string, r: string, e: string)
    requires s != "" && Closing(d) && Neutral(r) && Closing(e) && (e == d || !Contains(s, e))
    requires !(d <= s) && !Contains(Replaced(s[1..], d, r), e)
    ensures !Contains([s[0]] + Replaced(s[1..], d, r), e)
  {
    var t := Replaced(s[1..], d, r);
    forall i: nat | At([s[0]] + t, i, e) ensures false {
      if i == 0 {
        FrontIsAt([s[0]] + t, e);
        assert e[1..] <= ([s[0]] + t)[1..] == t;
        PrefixWasThere(s[1..], d, r, e[1..]);
        AtMember([s[0]] + t, 0, e, 0);
        assert e == [s[0]] + e[1..] && s == [s[0]] + s[1..];
        FrontIsAt(s, e);
      } else {
        AtShift([s[0]], t, i - 1, e);
      }
    }
  }

  /** Replacing a closing tag removes it, and creates no other one. */
  lemma {:induction false} ReplacementIsSafe(s: string, d: string, r: string, e: string)
    requires Closing(d) && Neutral(r) && Closing(e) && (e == d || !Contains(s, e))
    ensures !Contains(Replaced(s, d, r), e)
    decreases |s|
  {
    if s == "" {
    } else {
      var n := if d <= s then |d| else 1;
      assert n >= 1;
      hide Contains, Blocks, Closing, Neutral;
      assert e == d || !Contains(s[n..], e) by { if Contains(s[n..], e) { ContainsTail(s, n, e); } }
      ReplacementIsSafe(s[n..], d, r, e);
      if d <= s {
        NeutralBlocks(r, e);
        BlockedPrefix(r, Replaced(s[n..], d, r), e);
      } else {
        KeptCharacter(s, d, r, e);
      }
    }
  }

  lemma {:induction false} ReplacementChangesNothing(s: string, d: string, r: string)
    requires d != "" && !Contains(s, d)
    ensures Replaced(s, d, r) == s && Split(s, d) == [s]
    decreases |s|
  {
    if s != "" {
      FrontIsAt(s, d);
      if Contains(s[1..], d) { ContainsTail(s, 1, d); }
      ReplacementChangesNothing(s[1..], d, r);
    }
  }

  // ---- The prompt ----

  const TRANSCRIPT_OPEN: string := "<prior-conversation>"
  const TRANSCRIPT_CLOSE: string := "</prior-conversation>"
  const TURN_CLOSE: string := "</turn>"
  const NEUTRAL_TURN: string := "<\\/turn>"
  const NEUTRAL_TRANSCRIPT: string := "<\\/prior-conversation>"

  function EscapeTranscriptText(text: string): string {
    Join(Split(Join(Split(text, TURN_CLOSE), NEUTRAL_TURN), TRANSCRIPT_CLOSE), NEUTRAL_TRANSCRIPT)
  }

  function TurnOpen(role: Role): string {
    if role == User then "<turn speaker=\"User\">" else "<turn speaker=\"Advisor\">"
  }

  function FramedTurn(m: Message): string {
    TurnOpen(m.role) + EscapeTranscriptText(m.text) + TURN_CLOSE
  }

  function Framed(history: seq<Message>): seq<string> {
    seq(|history|, i requires 0 <= i < |history| => FramedTurn(history[i]))
  }

  function Question(boardId: string, question: string, widgetType: Option<string>): string {
    "For board " + boardId
    + (if widgetType.Some? && widgetType.value != ""
       then " (in the context of the " + widgetType.value + " widget)" else "")
    + ", answer: " + question
  }

  /** `preamble` is the fixed text ahead of the fence. */
  function BuildPrompt(
    preamble: string, boardId: string, question: string, widgetType: Option<string>,
        history: Option<seq<Message>>): string
  {
    var ask := Question(boardId, question, widgetType);
    if history.None? || history.value == [] then ask
    else
      Join([preamble, TRANSCRIPT_OPEN, Join(Framed(history.value), "\n"), TRANSCRIPT_CLOSE, "", ask], "\n")
  }

  lemma TurnCloses()
    ensures Closing(TURN_CLOSE) && Neutral(NEUTRAL_TURN)
  {
  }

  lemma TranscriptCloses()
    ensures Closing(TRANSCRIPT_CLOSE) && Neutral(NEUTRAL_TRANSCRIPT)
  {
  }

  /** Escaped text holds neither closing delimiter: the second replacement does not bring the first one back. */
  lemma EscapedHoldsNoDelimiter(text: string)
    ensures !Contains(EscapeTranscriptText(text), TURN_CLOSE)
    ensures !Contains(EscapeTranscriptText(text), TRANSCRIPT_CLOSE)
  {
    TurnCloses();
    TranscriptCloses();
    var once := Join(Split(text, TURN_CLOSE), NEUTRAL_TURN);
    SplitJoinReplaces(text, TURN_CLOSE, NEUTRAL_TURN);
    SplitJoinReplaces(once, TRANSCRIPT_CLOSE, NEUTRAL_TRANSCRIPT);
    hide Closing, Neutral, Contains;
    ReplacementIsSafe(text, TURN_CLOSE, NEUTRAL_TURN, TURN_CLOSE);
    ReplacementIsSafe(once, TRANSCRIPT_CLOSE, NEUTRAL_TRANSCRIPT, TRANSCRIPT_CLOSE);
    ReplacementIsSafe(once, TRANSCRIPT_CLOSE, NEUTRAL_TRANSCRIPT, TURN_CLOSE);
  }

  /** Escaping changes a text exactly when it holds a closing delimiter; so escaping twice is escaping once. */
  lemma EscapeChangesExactly(text: string)
    ensures EscapeTranscriptText(text) == text <==> !Contains(text, TURN_CLOSE) && !Contains(text, TRANSCRIPT_CLOSE)
  {
    EscapedHoldsNoDelimiter(text);
    hide Contains;
    if !Contains(text, TURN_CLOSE) && !Contains(text, TRANSCRIPT_CLOSE) {
      ReplacementChangesNothing(text, TURN_CLOSE, NEUTRAL_TURN);
      ReplacementChangesNothing(text, TRANSCRIPT_CLOSE, NEUTRAL_TRANSCRIPT);
    }
  }

  // ---- Reading a prompt back ----

  /** The pieces a transcript falls into at the turn delimiter: the turns, and nothing after the last. */
  function Pieces(history: seq<Message>): seq<string>
    decreases |history|
  {
    if history == [] then [""]
    else
      var rest := Pieces(history[1..]);
      [TurnOpen(history[0].role) + EscapeTranscriptText(history[0].text)]
      + if |history| == 1 then rest else [['\n'] + rest[0]] + rest[1..]
  }

  function Transcript(history: seq<Message>): string
    requires history != []
  {
    Join(Framed(history), "\n")
  }

  lemma TranscriptFirst(history: seq<Message>)
    requires history != []
    ensures Transcript(history)
            == FramedTurn(history[0]) + if |history| == 1 then "" else ['\n'] + Transcript(history[1..])
  {
    hide FramedTurn;
    if |history| > 1 { assert Framed(history)[1..] == Framed(history[1..]); }
  }

  /** The part of a text before the first occurrence of a separator is the first piece. */
  lemma {:induction false} SplitAtFirst(a: string, d: string, b: string)
    requires Closing(d) && !Contains(a, d)
    ensures Split(a + d + b, d) == [a] + Split(b, d)
    decreases |a|
  {
    var s := a + d + b;
    if a == "" {
      assert s == d + b;
      assert s[|d|..] == b;
    } else {
      assert s[1..] == a[1..] + d + b;
      if Contains(a[1..], d) { ContainsTail(a, 1, d); }
      SplitAtFirst(a[1..], d, b);
      if d <= s {
        FrontIsAt(s, d);
        if |d| <= |a| {
          assert s == a + (d + b);
          AtWithin(a, d + b, 0, d);
        } else {
          AtMember(s, 0, d, |a|);
        }
        assert false;
      }
      assert [s[0]] + a[1..] == a;
      assert ([a[1..]] + Split(b, d))[1..] == Split(b, d);
    }
  }

  lemma SplitKeepsCharacter(c: char, s: string, d: string)
    requires Closing(d) && c != '<'
    ensures Split([c] + s, d) == [[c] + Split(s, d)[0]] + Split(s, d)[1..]
  {
    assert ([c] + s)[1..] == s;
    var t := [c] + s;
    assert t[0] == c;
    if d <= t { assert false; }
  }

  lemma TurnOpenBlocks(role: Role)
    ensures Blocks(TurnOpen(role), TURN_CLOSE) && Blocks(TurnOpen(role), TRANSCRIPT_CLOSE)
  {
    TurnCloses();
    TranscriptCloses();
    assert Neutral(TurnOpen(role));
    NeutralBlocks(TurnOpen(role), TURN_CLOSE);
    NeutralBlocks(TurnOpen(role), TRANSCRIPT_CLOSE);
  }

  /** Splitting a transcript at the turn delimiter gives the escaped turns, in order, whatever they say. */
  lemma {:induction false} TranscriptSplits(history: seq<Message>)
    requires history != []
    ensures Split(Transcript(history), TURN_CLOSE) == Pieces(history)
    decreases |history|
  {
    TurnCloses();
    hide Transcript, Closing, Contains, Blocks, EscapeTranscriptText;
    TranscriptFirst(history);
    var turn := TurnOpen(history[0].role) + EscapeTranscriptText(history[0].text);
    var rest := if |history| == 1 then "" else ['\n'] + Transcript(history[1..]);
    EscapedHoldsNoDelimiter(history[0].text);
    TurnOpenBlocks(history[0].role);
    BlockedPrefix(TurnOpen(history[0].role), EscapeTranscriptText(history[0].text), TURN_CLOSE);
    assert Transcript(history) == turn + TURN_CLOSE + rest;
    SplitAtFirst(turn, TURN_CLOSE, rest);
    if |history| > 1 {
      TranscriptSplits(history[1..]);
      SplitKeepsCharacter('\n', Transcript(history[1..]), TURN_CLOSE);
    }
  }

  /** The pieces, one by one: each turn behind its opening tag, and a line break between two turns. */
  lemma {:induction false} PiecesAreTheTurns(history: seq<Message>)
    ensures |Pieces(history)| == |history| + 1 && Pieces(history)[|history|] == ""
    ensures forall i :: 0 <= i < |history| ==>
              Pieces(history)[i] == (if i == 0 then "" else ['\n'])
                                    + (TurnOpen(history[i].role) + EscapeTranscriptText(history[i].text))
    decreases |history|
  {
    hide TurnOpen, EscapeTranscriptText;
    if history != [] { PiecesAreTheTurns(history[1..]); }
  }

  lemma LineBreakBlocks(d: string)
    requires Closing(d)
    ensures Blocks(['\n'], d)
  {
  }

  lemma TurnCloseBlocks()
    ensures Blocks(TURN_CLOSE, TRANSCRIPT_CLOSE)
  {
    var h, d := TURN_CLOSE, TRANSCRIPT_CLOSE;
    assert h[0 + 2] == 't' && d[2] == 'p';
  }

  lemma Regroup(a: string, b: string, c: string, d: string)
    ensures a + (b + c) + d == a + (b + (c + d))
  {
  }

  lemma TurnStaysFenced(open: string, text: string, close: string, rest: string, d: string)
    requires d != "" && Closing(d) && Blocks(open, d) && Blocks(close, d) && close != "" && close[0] == '<'
    requires !Contains(text, d) && !Contains(rest, d)
    ensures !Contains(open + text + close + rest, d)
  {
    hide Closing, Contains, Blocks;
    BlockedPrefix(close, rest, d);
    NoStraddle(text, close + rest, d);
    BlockedPrefix(open, text + (close + rest), d);
    assert open + text + close + rest == open + (text + (close + rest));
  }

  /** No text of a turn ends the fence: nor does what follows the transcript, as long as that does not. */
  lemma {:induction false} TranscriptStaysFenced(history: seq<Message>, tail: string)
    requires history != [] && !Contains(tail, TRANSCRIPT_CLOSE)
    ensures !Contains(Transcript(history) + tail, TRANSCRIPT_CLOSE)
    decreases |history|
  {
    TranscriptCloses();
    TurnCloseBlocks();
    LineBreakBlocks(TRANSCRIPT_CLOSE);
    TurnOpenBlocks(history[0].role);
    EscapedHoldsNoDelimiter(history[0].text);
    assert TURN_CLOSE != "" && TURN_CLOSE[0] == '<' && TRANSCRIPT_CLOSE != "";
    hide Transcript, Closing, Contains, Blocks, EscapeTranscriptText, TurnOpen, TURN_CLOSE, TRANSCRIPT_CLOSE;
    TranscriptFirst(history);
    var open, text := TurnOpen(history[0].role), EscapeTranscriptText(history[0].text);
    if |history| == 1 {
      TurnStaysFenced(open, text, TURN_CLOSE, tail, TRANSCRIPT_CLOSE);
      assert open + text + TURN_CLOSE + "" == open + text + TURN_CLOSE;
    } else {
      var more := Transcript(history[1..]);
      TranscriptStaysFenced(history[1..], tail);
      BlockedPrefix(['\n'], more + tail, TRANSCRIPT_CLOSE);
      TurnStaysFenced(open, text, TURN_CLOSE, ['\n'] + (more + tail), TRANSCRIPT_CLOSE);
      Regroup(open + text + TURN_CLOSE, ['\n'], more, tail);
    }
  }

  lemma JoinSix(a: string, b: string, c: string, d: string, e: string, br: string)
    ensures Join([a, b, c, d, "", e], br) == a + (br + (b + (br + (c + br)))) + d + (br + br + e)
  {
    JoinMore("", [e], br);
    JoinMore(d, ["", e], br);
    JoinMore(c, [d, "", e], br);
    JoinMore(b, [c, d, "", e], br);
    JoinMore(a, [b, c, d, "", e], br);
    hide Join;
    assert [a] + [b, c, d, "", e] == [a, b, c, d, "", e];
    assert [b] + [c, d, "", e] == [b, c, d, "", e];
    assert [c] + [d, "", e] == [c, d, "", e];
    assert [d] + ["", e] == [d, "", e];
    assert [""] + [e] == ["", e];
    assert "" + br + Join([e], br) == br + Join([e], br);
  }

  /** Everything ahead of the closing fence of a prompt with history. */
  function Head(preamble: string, history: seq<Message>): string
    requires history != []
  {
    preamble + ("\n" + (TRANSCRIPT_OPEN + ("\n" + (Transcript(history) + "\n"))))
  }

  lemma PromptShape(
    preamble: string, boardId: string, question: string, widgetType: Option<string>, history: seq<Message>)
    requires history != []
    ensures BuildPrompt(preamble, boardId, question, widgetType, Some(history))
            == Head(preamble, history) + TRANSCRIPT_CLOSE + ("\n" + "\n" + Question(boardId, question, widgetType))
  {
    hide Question, Join, TRANSCRIPT_OPEN, TRANSCRIPT_CLOSE;
    JoinSix(preamble, TRANSCRIPT_OPEN, Transcript(history), TRANSCRIPT_CLOSE,
            Question(boardId, question, widgetType), "\n");
  }

  /**
   * The first closing fence in a prompt is the one written: what precedes it is the transcript, which falls into
   * exactly the escaped turns, and the question comes after it, whatever turns and question say.
   */
  lemma PromptReadsBack(
    preamble: string, boardId: string, question: string, widgetType: Option<string>, history: seq<Message>)
    requires history != [] && forall i :: 0 <= i < |preamble| ==> preamble[i] != '<'
    ensures var prompt := BuildPrompt(preamble, boardId, question, widgetType, Some(history));
            && Split(prompt, TRANSCRIPT_CLOSE)[0] == Head(preamble, history)
            && prompt
                == Head(preamble, history) + TRANSCRIPT_CLOSE + ("\n" + "\n" + Question(boardId, question, widgetType))
    ensures Split(Transcript(history), TURN_CLOSE) == Pieces(history)
  {
    TranscriptSplits(history);
    PromptShape(preamble, boardId, question, widgetType, history);
    HeadIsFenced(preamble, history);
    TranscriptCloses();
    assert TRANSCRIPT_CLOSE != "";
    hide BuildPrompt, Head, Question, Contains, Closing, TRANSCRIPT_CLOSE, Split;
    SplitAtFirst(Head(preamble, history), TRANSCRIPT_CLOSE, "\n" + "\n" + Question(boardId, question, widgetType));
  }

  lemma HeadIsFenced(preamble: string, history: seq<Message>)
    requires history != [] && forall i :: 0 <= i < |preamble| ==> preamble[i] != '<'
    ensures !Contains(Head(preamble, history), TRANSCRIPT_CLOSE)
  {
    TranscriptCloses();
    var d := TRANSCRIPT_CLOSE;
    LineBreakBlocks(d);
    assert Neutral(TRANSCRIPT_OPEN);
    NeutralBlocks(TRANSCRIPT_OPEN, d);
    assert Blocks(preamble, d);
    assert !Contains(['\n'], d);
    assert d != "";
    hide Transcript, Closing, Contains, Blocks, TRANSCRIPT_CLOSE, TRANSCRIPT_OPEN;
    TranscriptStaysFenced(history, ['\n']);
    var fenced := Transcript(history) + ['\n'];
    BlockedPrefix(['\n'], fenced, d);
    BlockedPrefix(TRANSCRIPT_OPEN, ['\n'] + fenced, d);
    BlockedPrefix(['\n'], TRANSCRIPT_OPEN + (['\n'] + fenced), d);
    BlockedPrefix(preamble, ['\n'] + (TRANSCRIPT_OPEN + (['\n'] + fenced)), d);
  }

  // ---- What a reader can tell ----

  /** An opening tag tells who speaks, whatever text follows it. */
  lemma OpeningTellsSpeaker(a: Role, s: string, b: Role, t: string)
    requires TurnOpen(a) + s == TurnOpen(b) + t
    ensures a == b && s == t
    ensures a == User <==> "<turn speaker=\"User\">" <= TurnOpen(a) + s
  {
    var x, y := TurnOpen(a) + s, TurnOpen(b) + t;
    assert x[15] == TurnOpen(a)[15] && y[15] == TurnOpen(b)[15];
    assert "<turn speaker=\"User\">"[15] == 'U';
    assert x[|TurnOpen(a)|..] == s && y[|TurnOpen(b)|..] == t;
  }

  /** A transcript tells its turns apart: who spoke, and every text up to its escaping. */
  lemma TranscriptTellsTurns(a: seq<Message>, b: seq<Message>)
    requires a != [] && b != [] && Transcript(a) == Transcript(b)
    ensures |a| == |b|
    ensures forall i :: 0 <= i < |a| ==>
              a[i].role == b[i].role && EscapeTranscriptText(a[i].text) == EscapeTranscriptText(b[i].text)
  {
    TranscriptSplits(a);
    TranscriptSplits(b);
    PiecesAreTheTurns(a);
    PiecesAreTheTurns(b);
    hide Transcript, Pieces, EscapeTranscriptText, TurnOpen;
    forall i | 0 <= i < |a|
      ensures a[i].role == b[i].role && EscapeTranscriptText(a[i].text) == EscapeTranscriptText(b[i].text)
    {
      var s, t := EscapeTranscriptText(a[i].text), EscapeTranscriptText(b[i].text);
      if i > 0 {
        assert Pieces(a)[i][1..] == TurnOpen(a[i].role) + s;
        assert Pieces(b)[i][1..] == TurnOpen(b[i].role) + t;
      }
      OpeningTellsSpeaker(a[i].role, s, b[i].role, t);
    }
  }

  predicate EndsIn(s: string, t: string) {
    |t| <= |s| && s[|s| - |t|..] == t
  }

  lemma EndsInMore(a: string, s: string, t: string)
    requires EndsIn(s, t)
    ensures EndsIn(a + s, t)
  {
    assert (a + s)[|a + s| - |t|..] == s[|s| - |t|..];
  }

  lemma QuestionEnds(boardId: string, question: string, widgetType: Option<string>)
    ensures EndsIn(Question(boardId, question, widgetType), ", answer: " + question)
    ensures "For board " + boardId <= Question(boardId, question, widgetType)
  {
    var ask := Question(boardId, question, widgetType);
    var tail := ", answer: " + question;
    var middle := if widgetType.Some? && widgetType.value != ""
                  then " (in the context of the " + widgetType.value + " widget)" else "";
    assert ask == "For board " + boardId + middle + tail;
    assert ask[|ask| - |tail|..] == tail;
  }

  lemma PromptHead(
    preamble: string, boardId: string, question: string, widgetType: Option<string>, history: Option<seq<Message>>)
    returns (head: string)
    ensures BuildPrompt(preamble, boardId, question, widgetType, history)
            == head + Question(boardId, question, widgetType)
  {
    hide Question, Join;
    if history.None? || history.value == [] {
      head := "";
    } else {
      PromptShape(preamble, boardId, question, widgetType, history.value);
      hide BuildPrompt, Head;
      head := Head(preamble, history.value) + TRANSCRIPT_CLOSE + ("\n" + "\n");
    }
  }

  /** With or without history, the live question is the last thing in the prompt, and the board is named before it. */
  lemma PromptEndsInQuestion(
    preamble: string, boardId: string, question: string, widgetType: Option<string>, history: Option<seq<Message>>)
    ensures EndsIn(BuildPrompt(preamble, boardId, question, widgetType, history), ", answer: " + question)
    ensures exists head, ask ::
              && BuildPrompt(preamble, boardId, question, widgetType, history) == head + ask
              && "For board " + boardId <= ask && EndsIn(ask, ", answer: " + question)
  {
    var ask := Question(boardId, question, widgetType);
    QuestionEnds(boardId, question, widgetType);
    var head := PromptHead(preamble, boardId, question, widgetType, history);
    hide Question, BuildPrompt, EndsIn;
    EndsInMore(head, ask, ", answer: " + question);
  }
}
