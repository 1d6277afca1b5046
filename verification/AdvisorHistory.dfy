/**
 * The transcript replayed with a question (packages/shared/src/advisor.ts) and the two checks it has to pass, one of
 * them restated in apps/advisor-bridge/src/ws-server.ts. A text is its sequence of UTF-16 code units.
 */
module AdvisorHistory {
  import opened Wrappers

  const MAX_MESSAGES: nat := 20
  const MAX_CHARS: nat := 8000

  datatype Role = User | Assistant

  datatype Message = Message(role: Role, text: string)

  function Chars(h: seq<Message>): nat {
    if h == [] then 0 else Chars(h[..|h| - 1]) + |h[|h| - 1].text|
  }

  predicate InBudget(h: seq<Message>) {
    |h| <= MAX_MESSAGES && Chars(h) <= MAX_CHARS
  }

  /** What may be replayed: within both budgets, and not beginning with an answer. */
  predicate Legal(h: seq<Message>) {
    InBudget(h) && (h == [] || h[0].role == User)
  }

  /** `r` is the longest end of `messages` that may be replayed. */
  ghost predicate LongestLegal(messages: seq<Message>, r: seq<Message>) {
    && |r| <= |messages| && r == messages[|messages| - |r|..]
    && Legal(r)
    && forall k :: 0 <= k <= |messages| && Legal(messages[k..]) ==> |messages| - k <= |r|
  }

  lemma {:induction false} CharsAppend(a: seq<Message>, b: seq<Message>)
    ensures Chars(a + b) == Chars(a) + Chars(b)
  {
    if b == [] {
      assert a + b == a;
    } else {
      assert (a + b)[..|a + b| - 1] == a + b[..|b| - 1];
      CharsAppend(a, b[..|b| - 1]);
    }
  }

  lemma CharsFirst(m: seq<Message>, i: nat)
    requires i < |m|
    ensures Chars(m[i..]) == |m[i].text| + Chars(m[i + 1..])
  {
    assert m[i..] == [m[i]] + m[i + 1..];
    CharsAppend([m[i]], m[i + 1..]);
    assert [m[i]][..0] == [];
  }

  /** A longer end of the transcript is not within budget unless the shorter one is. */
  lemma BudgetShrinks(m: seq<Message>, i: nat, j: nat)
    requires i <= j <= |m| && InBudget(m[i..])
    ensures InBudget(m[j..])
  {
    assert m[i..] == m[i..j] + m[j..];
    CharsAppend(m[i..j], m[j..]);
  }

  lemma ReversedFirst(m: seq<Message>, i: nat)
    requires i < |m|
    ensures Reversed(m[i..]) == Reversed(m[i + 1..]) + [m[i]]
  {
    assert m[i..][1..] == m[i + 1..];
  }

  /** What one message more does to the end of the transcript collected so far. */
  lemma OneMore(m: seq<Message>, i: nat)
    requires i < |m| && InBudget(m[i + 1..])
    ensures Reversed(m[i..]) == Reversed(m[i + 1..]) + [m[i]]
    ensures Chars(m[i..]) == Chars(m[i + 1..]) + |m[i].text|
    ensures InBudget(m[i..])
        <==> |Reversed(m[i + 1..])| < MAX_MESSAGES && Chars(m[i + 1..]) + |m[i].text| <= MAX_CHARS
  {
    CharsFirst(m, i);
    ReversedFirst(m, i);
    hide Chars, Reversed;
  }

  /** The newest messages that fit both budgets, newest first: `i` is where they begin. */
  method NewestWithinBudget(messages: seq<Message>) returns (newestFirst: seq<Message>, ghost i: nat)
    ensures i <= |messages| && newestFirst == Reversed(messages[i..])
    ensures InBudget(messages[i..]) && (i > 0 ==> !InBudget(messages[i - 1..]))
  {
    newestFirst := [];
    var chars := 0;
    var n := |messages|;
    assert messages[n..] == [] && InBudget([]);
    while n > 0
      invariant n <= |messages|
      invariant newestFirst == Reversed(messages[n..])
      invariant chars == Chars(messages[n..]) && InBudget(messages[n..])
    {
      var message := messages[n - 1];
      OneMore(messages, n - 1);
      hide Chars, Reversed, InBudget;
      if |newestFirst| >= MAX_MESSAGES { return newestFirst, n; }
      if chars + |message.text| > MAX_CHARS { return newestFirst, n; }
      newestFirst := newestFirst + [message];
      chars := chars + |message.text|;
      n := n - 1;
    }
    i := 0;
  }

  /** Dropping the answers at the front of the longest end within budget leaves the longest that may be replayed. */
  lemma DroppingAnswersIsLongest(messages: seq<Message>, i: nat, first: nat)
    requires i + first <= |messages|
    requires InBudget(messages[i..]) && (i > 0 ==> !InBudget(messages[i - 1..]))
    requires i + first < |messages| ==> messages[i + first].role == User
    requires forall j :: i <= j < i + first ==> messages[j].role != User
    ensures LongestLegal(messages, messages[i + first..])
  {
    hide InBudget;
    BudgetShrinks(messages, i, i + first);
    forall k | 0 <= k <= |messages| && Legal(messages[k..]) ensures k >= i + first {
      if k < i {
        BudgetShrinks(messages, k, i - 1);
      } else if k < i + first {
        assert false;
      }
    }
  }

  /** Walks from the newest message backwards, then drops the answers at the front. */
  method BuildHistoryForAsk(messages: seq<Message>) returns (r: seq<Message>)
    ensures LongestLegal(messages, r)
  {
    var newestFirst, i := NewestWithinBudget(messages);
    var chronological := Reversed(newestFirst);
    ReversedTwice(messages[i..]);
    var first := FirstUser(chronological);
    hide InBudget, LongestLegal, Reversed;
    assert forall j :: i <= j < |messages| ==> messages[j] == chronological[j - i];
    DroppingAnswersIsLongest(messages, i, first);
    r := chronological[first..];
    assert r == messages[i + first..];
  }

  function Reversed(s: seq<Message>): (r: seq<Message>)
    ensures |r| == |s|
  {
    if s == [] then [] else Reversed(s[1..]) + [s[0]]
  }

  lemma {:induction false} ReversedAppend(s: seq<Message>, m: Message)
    ensures Reversed(s + [m]) == [m] + Reversed(s)
  {
    if s == [] {
      assert s + [m] == [m];
    } else {
      assert (s + [m])[1..] == s[1..] + [m];
      ReversedAppend(s[1..], m);
    }
  }

  lemma {:induction false} ReversedTwice(s: seq<Message>)
    ensures Reversed(Reversed(s)) == s
  {
    if s != [] {
      ReversedTwice(s[1..]);
      ReversedAppend(Reversed(s[1..]), s[0]);
    }
  }

  /** The index of the first user turn, or the length of `h` without one. */
  method FirstUser(h: seq<Message>) returns (i: nat)
    ensures i <= |h| && (i < |h| ==> h[i].role == User)
    ensures forall j :: 0 <= j < i ==> h[j].role != User
  {
    i := 0;
    while i < |h| && h[i].role != User
      invariant i <= |h| && forall j :: 0 <= j < i ==> h[j].role != User
    {
      i := i + 1;
    }
  }

  /** The property determines the result. */
  lemma LongestLegalIsUnique(messages: seq<Message>, r: seq<Message>, q: seq<Message>)
    requires LongestLegal(messages, r) && LongestLegal(messages, q)
    ensures r == q
  {
  }

  /** Trimming a trimmed transcript changes nothing. */
  lemma TrimIsIdempotent(messages: seq<Message>, r: seq<Message>, q: seq<Message>)
    requires LongestLegal(messages, r) && LongestLegal(r, q)
    ensures q == r
  {
    assert r[0..] == r;
  }

  /** A newest message over the budget on its own leaves nothing to replay. */
  lemma NewestMustFit(messages: seq<Message>, r: seq<Message>)
    requires LongestLegal(messages, r)
    ensures r != [] ==> r[|r| - 1] == messages[|messages| - 1] && |messages[|messages| - 1].text| <= MAX_CHARS
  {
    if r != [] { BudgetOfOne(r, |r| - 1); }
  }

  // ---- The two checks ----

  /** The API's check of a posted transcript: its length, every message, and the total. */
  method CheckHistory(history: seq<Message>) returns (ok: bool)
    ensures ok <==> InBudget(history) && forall m :: m in history ==> 1 <= |m.text| <= MAX_CHARS
  {
    if |history| > MAX_MESSAGES { return false; }
    var total := 0;
    for i := 0 to |history|
      invariant total == Chars(history[..i])
      invariant forall m :: m in history[..i] ==> 1 <= |m.text| <= MAX_CHARS
    {
      assert history[i] in history;
      assert history[..i + 1] == history[..i] + [history[i]];
      if |history[i].text| < 1 || |history[i].text| > MAX_CHARS { return false; }
      total := total + |history[i].text|;
      assert history[..i + 1][..i] == history[..i];
    }
    assert history[..|history|] == history;
    ok := total <= MAX_CHARS;
  }

  /** An entry of the untyped array that arrives on the socket; `None` where the field is not a string. */
  datatype Entry = NotAnObject | Entry(role: Option<string>, text: Option<string>)

  predicate WellFormed(e: Entry) {
    e.Entry? && e.role.Some? && (e.role.value == "user" || e.role.value == "assistant") && e.text.Some?
  }

  function AsMessage(e: Entry): Message
    requires WellFormed(e)
  {
    Message(if e.role.value == "user" then User else Assistant, e.text.value)
  }

  function AsEntry(m: Message): Entry {
    Entry(Some(if m.role == User then "user" else "assistant"), Some(m.text))
  }

  function Parsed(es: seq<Entry>): seq<Message>
    requires forall e :: e in es ==> WellFormed(e)
  {
    seq(|es|, i requires 0 <= i < |es| => AsMessage(es[i]))
  }

  /** The bridge's own check gives up as soon as the running total is over the budget. */
  method IsAskHistory(value: Option<seq<Entry>>) returns (ok: bool)
    ensures ok <==> value.Some? && (forall e :: e in value.value ==> WellFormed(e)) && InBudget(Parsed(value.value))
  {
    if value.None? || |value.value| > MAX_MESSAGES { return false; }
    var es := value.value;
    var chars := 0;
    for i := 0 to |es|
      invariant forall e :: e in es[..i] ==> WellFormed(e)
      invariant chars == Chars(Parsed(es[..i])) && chars <= MAX_CHARS
    {
      var e := es[i];
      if !WellFormed(e) { return false; }
      assert es[..i + 1] == es[..i] + [e];
      chars := chars + |e.text.value|;
      ParsedStep(es, i);
      if chars > MAX_CHARS {
        if forall x :: x in es ==> WellFormed(x) { ParsedPrefix(es, i + 1); }
        return false;
      }
    }
    assert es[..|es|] == es;
    ok := true;
  }

  /** An entry is well formed exactly when it is how some message is sent, and it is read as that message. */
  lemma WellFormedExactly(e: Entry, m: Message)
    ensures e == AsEntry(m) <==> WellFormed(e) && AsMessage(e) == m
    ensures WellFormed(e) <==> exists x :: e == AsEntry(x)
  {
    assert "user"[0] != "assistant"[0];
    if WellFormed(e) { assert e == AsEntry(AsMessage(e)); }
  }

  lemma ParsedStep(es: seq<Entry>, i: nat)
    requires i < |es| && forall e :: e in es[..i + 1] ==> WellFormed(e)
    requires forall e :: e in es[..i] ==> WellFormed(e)
    ensures Chars(Parsed(es[..i + 1])) == Chars(Parsed(es[..i])) + |AsMessage(es[i]).text|
  {
    assert Parsed(es[..i + 1])[..i] == Parsed(es[..i]);
  }

  lemma ParsedPrefix(es: seq<Entry>, i: nat)
    requires i <= |es| && forall e :: e in es ==> WellFormed(e)
    ensures Chars(Parsed(es[..i])) <= Chars(Parsed(es))
  {
    assert Parsed(es) == Parsed(es[..i]) + Parsed(es[i..]);
    CharsAppend(Parsed(es[..i]), Parsed(es[i..]));
  }

  /** Whatever the transcript, what is replayed passes both checks. */
  lemma TrimmedPassesBothChecks(messages: seq<Message>, r: seq<Message>)
    requires LongestLegal(messages, r) && forall m :: m in messages ==> m.text != ""
    ensures InBudget(r) && forall m :: m in r ==> 1 <= |m.text| <= MAX_CHARS
    ensures var es := seq(|r|, i requires 0 <= i < |r| => AsEntry(r[i]));
            (forall e :: e in es ==> WellFormed(e)) && Parsed(es) == r
  {
    forall m | m in r ensures 1 <= |m.text| <= MAX_CHARS {
      var i :| 0 <= i < |r| && r[i] == m;
      assert m == messages[|messages| - |r| + i];
      BudgetOfOne(r, i);
    }
  }

  lemma BudgetOfOne(h: seq<Message>, i: nat)
    requires i < |h| && InBudget(h)
    ensures |h[i].text| <= MAX_CHARS
  {
    assert h[0..] == h;
    BudgetShrinks(h, 0, i);
    CharsFirst(h, i);
  }
}
