/** The backward scan simulates a stack.  For every input: at each loop head the open tokens are what a
    push-down automaton over the text's brackets and leaves would have on its stack; the parser accepts
    exactly the texts whose brackets are balanced; and the tokens are ordered, nested and fully counted. */
module JsmnStack {
  import opened Basics
  import opened Jsmn
  import opened JsonGrammar

  // ---------------------------------------------------------------- the reference automaton

  /** What one turn of the loop sees in the text. */
  datatype Event = Push(typ: TokenType) | Pop(typ: TokenType) | Leaf

  /** The event at a position, if any, and where the next turn starts; lexical errors give a code. */
  datatype Seen = Seen(evs: seq<Event>, after: nat) | Bad(code: int)

  function Look(js: string, p: nat): (r: Seen)
    requires !AtEnd(js, p)
    ensures r.Seen? ==> p < r.after <= |js| && (r.evs == [] || exists e :: r.evs == [e])
    ensures r.Bad? ==> r.code < 0
  {
    var c := js[p];
    if c == '{' then Seen([Push(Object)], p + 1)
    else if c == '[' then Seen([Push(Array)], p + 1)
    else if c == '}' then Seen([Pop(Object)], p + 1)
    else if c == ']' then Seen([Pop(Array)], p + 1)
    else if c == '\"' then
      match StringEnd(js, p + 1)
      case Quote(q) => Seen([Leaf], q + 1)
      case BadString => Bad(-2)
      case OpenString => Bad(-3)
    else if White(c) || c == ':' || c == ',' then Seen([], p + 1)
    else
      var e := PrimitiveEnd(js, p);
      if e.None? then Bad(-2) else Seen([Leaf], e.value)
  }

  /** All the events from position p on, if the text is lexically sound. */
  function Events(js: string, p: nat): Option<seq<Event>>
    decreases |js| - p
  {
    if AtEnd(js, p) then Some([])
    else
      var l := Look(js, p);
      if l.Bad? then None
      else
        var rest := Events(js, l.after);
        if rest.None? then None else Some(l.evs + rest.value)
  }

  datatype Frame = Frame(typ: TokenType, index: nat)

  /** The automaton: how many tokens there are, and the brackets still open, outermost first. */
  datatype Stack = Stack(next: nat, frames: seq<Frame>)

  function Feed(st: Stack, e: Event): Option<Stack> {
    match e
    case Push(typ) => Some(Stack(st.next + 1, st.frames + [Frame(typ, st.next)]))
    case Leaf => Some(st.(next := st.next + 1))
    case Pop(typ) =>
      if st.frames == [] || st.frames[|st.frames| - 1].typ != typ then None
      else Some(st.(frames := st.frames[..|st.frames| - 1]))
  }

  function FeedAll(st: Stack, evs: seq<Event>): Option<Stack>
    decreases |evs|
  {
    if evs == [] then Some(st)
    else
      var st' := Feed(st, evs[0]);
      if st'.None? then None else FeedAll(st'.value, evs[1..])
  }

  lemma {:induction false} FeedConcat(st: Stack, xs: seq<Event>, ys: seq<Event>)
    ensures FeedAll(st, xs + ys)
            == if FeedAll(st, xs).None? then None else FeedAll(FeedAll(st, xs).value, ys)
    decreases |xs|
  {
    if xs == [] {
      assert xs + ys == ys;
    } else {
      assert (xs + ys)[1..] == xs[1..] + ys;
      var st' := Feed(st, xs[0]);
      if st'.Some? { FeedConcat(st'.value, xs[1..], ys); }
    }
  }

  // ---------------------------------------------------------------- the parser's loop heads

  /** The open tokens, in index order. */
  function Frames(toks: seq<Token>): (r: seq<Frame>)
    ensures LastOpen(toks) == if r == [] then -1 else r[|r| - 1].index
    ensures r != [] ==> r[|r| - 1].typ == toks[LastOpen(toks)].typ
  {
    if toks == [] then []
    else
      var t := toks[|toks| - 1];
      var before := Frames(toks[..|toks| - 1]);
      if Open(t) then before + [Frame(t.typ, |toks| - 1)] else before
  }

  lemma {:induction false} FramesSame(xs: seq<Token>, ys: seq<Token>)
    requires |xs| == |ys| && forall i :: 0 <= i < |xs| ==> xs[i] == ys[i].(size := xs[i].size)
    ensures Frames(xs) == Frames(ys)
    decreases |xs|
  {
    if xs != [] { FramesSame(xs[..|xs| - 1], ys[..|ys| - 1]); }
  }

  lemma {:induction false} FramesClose(toks: seq<Token>, i: nat, end: int)
    requires i == LastOpen(toks) && end != -1
    ensures Frames(toks[i := toks[i].(end := end)]) == Frames(toks)[..|Frames(toks)| - 1]
    decreases |toks|
  {
    var t' := toks[i := toks[i].(end := end)];
    if i == |toks| - 1 {
      assert t'[..|toks| - 1] == toks[..|toks| - 1];
    } else {
      assert t'[..|toks| - 1] == toks[..|toks| - 1][i := toks[i].(end := end)];
      FramesClose(toks[..|toks| - 1], i, end);
    }
  }

  function StackOf(s: State): Stack { Stack(s.next, Frames(s.toks)) }

  /** Does this turn allocate a token while toksuper is -1? */
  function Orphan(s: State, evs: seq<Event>): nat {
    if s.super == -1 && evs != [] && !evs[0].Pop? then 1 else 0
  }

  /** A loop head n turns on, with the events passed and the tokens allocated under no superior. */
  datatype Head = Head(s: State, evs: seq<Event>, orphans: nat)

  function Turns(js: string, slots: nat, s: State, n: nat): (r: Option<Head>)
    requires Valid(Slots(slots), s)
    ensures r.Some? ==> Valid(Slots(slots), r.value.s)
    decreases n
  {
    if n == 0 then Some(Head(s, [], 0))
    else
      var h := Turns(js, slots, s, n - 1);
      if h.None? || AtEnd(js, h.value.s.pos) then None
      else
        var m := Step(BackwardScan, js, Slots(slots), h.value.s);
        var l := Look(js, h.value.s.pos);
        if m.Halt? || l.Bad? then None
        else Some(Head(m.s, h.value.evs + l.evs, h.value.orphans + Orphan(h.value.s, l.evs)))
  }

  /** How a turn of the parser answers a turn of the automaton: NOMEM when it has no slot for the node. */
  predicate Follows(slots: nat, s: State, m: Move, fed: Option<Stack>, after: nat) {
    match fed
    case None => m == Halt(INVAL)
    case Some(st) =>
      if st.next > slots then m == Halt(NOMEM)
      else m.Go? && m.s.pos == after && StackOf(m.s) == st && m.s.count - m.s.next == s.count - s.next
  }

  lemma AddIsFeed(s: State, typ: TokenType, start: int, end: int)
    requires -1 <= s.super < |s.toks| == s.next && start != -1
    ensures var s' := Add(BackwardScan, s, typ, start, end);
            StackOf(s') == Stack(s.next + 1, if end == -1 then Frames(s.toks) + [Frame(typ, s.next)] else Frames(s.toks))
  {
    var s' := Add(BackwardScan, s, typ, start, end);
    assert s'.toks[..s.next] == Bump(s.toks, s.super);
    FramesSame(Bump(s.toks, s.super), s.toks);
  }

  lemma CloseIsFeed(slots: nat, s: State, typ: TokenType)
    requires Valid(Slots(slots), s)
    ensures Follows(slots, s, StepClose(BackwardScan, Slots(slots), s, typ), Feed(StackOf(s), Pop(typ)), s.pos + 1)
  {
    if LastOpen(s.toks) != -1 { FramesClose(s.toks, LastOpen(s.toks), s.pos + 1); }
  }

  lemma FeedOne(st: Stack, e: Event)
    ensures FeedAll(st, [e]) == Feed(st, e)
  {
    assert [e][1..] == [];
  }

  /** One turn of the parser is one turn of the automaton. */
  lemma StepIsFeed(js: string, slots: nat, s: State)
    requires Valid(Slots(slots), s) && !AtEnd(js, s.pos)
    ensures var m := Step(BackwardScan, js, Slots(slots), s);
            var l := Look(js, s.pos);
            if l.Bad? then m == Halt(l.code) else Follows(slots, s, m, FeedAll(StackOf(s), l.evs), l.after)
  {
    hide Frames, FeedAll, LastOpen, Bump, StepClose, StringEnd, PrimitiveEnd;
    var l := Look(js, s.pos);
    if l.Seen? {
      if l.evs == [] {
        FeedNone(StackOf(s));
      } else {
        FeedOne(StackOf(s), l.evs[0]);
        match l.evs[0]
        case Pop(typ) => CloseIsFeed(slots, s, typ);
        case Push(typ) => AddIsFeed(s, typ, s.pos, -1);
        case Leaf =>
          if js[s.pos] == '\"' {
            AddIsFeed(s, String, s.pos + 1, StringEnd(js, s.pos + 1).at);
          } else {
            AddIsFeed(s, Primitive, s.pos, PrimitiveEnd(js, s.pos).value);
          }
      }
    }
  }

  lemma FeedNone(st: Stack)
    ensures FeedAll(st, []) == Some(st)
  {
  }

  /** At every loop head, the open tokens, in index order, are the automaton's stack. */
  lemma {:induction false} ScanSimulatesStack(js: string, slots: nat, n: nat)
    ensures var h := Turns(js, slots, Start, n);
            h.Some? ==> FeedAll(Stack(0, []), h.value.evs) == Some(StackOf(h.value.s))
  {
    hide Step, Look;
    if n > 0 {
      var h := Turns(js, slots, Start, n - 1);
      ScanSimulatesStack(js, slots, n - 1);
      if h.Some? && !AtEnd(js, h.value.s.pos) {
        StepIsFeed(js, slots, h.value.s);
        var l := Look(js, h.value.s.pos);
        if l.Seen? { FeedConcat(Stack(0, []), h.value.evs, l.evs); }
      }
    }
  }

  // ---------------------------------------------------------------- what is accepted

  /** Feeding never lowers the token count. */
  lemma {:induction false} FeedGrows(st: Stack, evs: seq<Event>)
    ensures FeedAll(st, evs).Some? ==> st.next <= FeedAll(st, evs).value.next
    decreases |evs|
  {
    if evs != [] && Feed(st, evs[0]).Some? { FeedGrows(Feed(st, evs[0]).value, evs[1..]); }
  }

  /** From any loop head the parser succeeds exactly when the automaton empties its stack within the slots. */
  lemma {:induction false} RunIsAutomaton(js: string, slots: nat, s: State)
    requires Valid(Slots(slots), s) && s.count == s.next
    ensures var code := Run(BackwardScan, js, Slots(slots), s).code;
            var evs := Events(js, s.pos);
            var end := if evs.None? then None else FeedAll(StackOf(s), evs.value);
            && (code >= 0 <==> end.Some? && end.value.frames == [] && end.value.next <= slots)
            && (code >= 0 ==> code == end.value.next)
    decreases |js| - s.pos
  {
    hide Step, Look;
    if !AtEnd(js, s.pos) {
      StepIsFeed(js, slots, s);
      var l := Look(js, s.pos);
      var m := Step(BackwardScan, js, Slots(slots), s);
      if m.Go? { RunIsAutomaton(js, slots, m.s); }
      if l.Seen? && Events(js, l.after).Some? {
        FeedConcat(StackOf(s), l.evs, Events(js, l.after).value);
        if FeedAll(StackOf(s), l.evs).Some? { FeedGrows(FeedAll(StackOf(s), l.evs).value, Events(js, l.after).value); }
      }
    }
  }

  /** Balanced bracket words with leaves anywhere: the usual grammar, as derivation trees. */
  datatype Balanced = Empty | Atom(rest: Balanced) | Nest(typ: TokenType, inner: Balanced, rest: Balanced)

  function Word(b: Balanced): seq<Event> {
    match b
    case Empty => []
    case Atom(rest) => [Leaf] + Word(rest)
    case Nest(typ, inner, rest) => [Push(typ)] + Word(inner) + [Pop(typ)] + Word(rest)
  }

  /** Tokens a word allocates: its leaves and its opening brackets. */
  function Nodes(evs: seq<Event>): nat {
    if evs == [] then 0 else (if evs[0].Pop? then 0 else 1) + Nodes(evs[1..])
  }

  lemma {:induction false} FeedCounts(st: Stack, evs: seq<Event>)
    ensures FeedAll(st, evs).Some? ==> FeedAll(st, evs).value.next == st.next + Nodes(evs)
    decreases |evs|
  {
    if evs != [] && Feed(st, evs[0]).Some? { FeedCounts(Feed(st, evs[0]).value, evs[1..]); }
  }

  /** A balanced word leaves the stack as it was. */
  lemma {:induction false} FeedBalanced(st: Stack, b: Balanced)
    ensures FeedAll(st, Word(b)) == Some(st.(next := st.next + Nodes(Word(b))))
    decreases b
  {
    hide Frames;
    match b
    case Empty =>
    case Atom(rest) =>
      FeedConcat(st, [Leaf], Word(rest));
      FeedBalanced(st.(next := st.next + 1), rest);
    case Nest(typ, inner, rest) =>
      var w := [Push(typ)] + Word(inner) + [Pop(typ)];
      var st1 := Feed(st, Push(typ)).value;
      FeedConcat(st, [Push(typ)], Word(inner));
      assert FeedAll(st, [Push(typ)]) == Some(st1) by { assert [Push(typ)][1..] == []; }
      FeedBalanced(st1, inner);
      var st2 := st1.(next := st1.next + Nodes(Word(inner)));
      FeedConcat(st, [Push(typ)] + Word(inner), [Pop(typ)]);
      assert FeedAll(st2, [Pop(typ)]) == Some(st2.(frames := st.frames)) by { assert [Pop(typ)][1..] == []; }
      FeedConcat(st, w, Word(rest));
      FeedBalanced(st2.(frames := st.frames), rest);
    FeedCounts(st, Word(b));
  }

  ghost predicate Empties(st: Stack, evs: seq<Event>) {
    FeedAll(st, evs).Some? && FeedAll(st, evs).value.frames == []
  }

  /** evs is a balanced word, followed, when the stack has a top frame, by its closing bracket and a rest that
      empties what is left. */
  ghost predicate Splits(st: Stack, evs: seq<Event>, b: Balanced, rest: seq<Event>) {
    if st.frames == [] then evs == Word(b)
    else
      var top := |st.frames| - 1;
      && evs == Word(b) + [Pop(st.frames[top].typ)] + rest
      && Empties(Stack(st.next + Nodes(Word(b)), st.frames[..top]), rest)
  }

  /** Conversely, a word that empties the stack splits at the bracket that closes the top frame. */
  lemma {:induction false} Derive(st: Stack, evs: seq<Event>) returns (b: Balanced, rest: seq<Event>)
    requires Empties(st, evs)
    ensures Splits(st, evs, b, rest)
    decreases |evs|
  {
    if evs == [] {
      b, rest := Empty, [];
      return;
    }
    assert evs == [evs[0]] + evs[1..];
    var st1 := Feed(st, evs[0]).value;
    assert Empties(st1, evs[1..]);
    match evs[0]
    case Pop(_) =>
      b, rest := Empty, evs[1..];
    case Leaf =>
      hide FeedAll;
      var b1;
      b1, rest := Derive(st1, evs[1..]);
      b := Atom(b1);
      if st.frames != [] { assert evs == [Leaf] + (Word(b1) + [Pop(st.frames[|st.frames| - 1].typ)] + rest); }
    case Push(typ) =>
      hide FeedAll, Empties, Splits;
      var inner, after := Derive(st1, evs[1..]);
      SplitsInner(st, typ, evs[1..], inner, after);
      var b2;
      b2, rest := Derive(Stack(st1.next + Nodes(Word(inner)), st.frames), after);
      b := Nest(typ, inner, b2);
      SplitsNest(st, evs, typ, inner, after, b2, rest);
  }

  lemma SplitsInner(st: Stack, typ: TokenType, evs: seq<Event>, inner: Balanced, after: seq<Event>)
    requires Splits(Feed(st, Push(typ)).value, evs, inner, after)
    ensures |after| < |evs| && evs == Word(inner) + [Pop(typ)] + after
    ensures Empties(Stack(st.next + 1 + Nodes(Word(inner)), st.frames), after)
  {
    var st1 := Feed(st, Push(typ)).value;
    assert st1.frames[..|st1.frames| - 1] == st.frames;
  }

  lemma SplitsNest(st: Stack, evs: seq<Event>, typ: TokenType, inner: Balanced, after: seq<Event>, b: Balanced, rest: seq<Event>)
    requires evs == [Push(typ)] + (Word(inner) + [Pop(typ)] + after)
    requires Splits(Stack(st.next + 1 + Nodes(Word(inner)), st.frames), after, b, rest)
    ensures Splits(st, evs, Nest(typ, inner, b), rest)
  {
    hide FeedAll, Nodes;
    NodesNest(typ, inner, b);
    if st.frames == [] {
      NestWord(typ, inner, b, []);
    } else {
      NestWord(typ, inner, b, [Pop(st.frames[|st.frames| - 1].typ)] + rest);
    }
  }

  lemma NestWord(typ: TokenType, inner: Balanced, b: Balanced, tail: seq<Event>)
    ensures [Push(typ)] + (Word(inner) + [Pop(typ)] + (Word(b) + tail)) == Word(Nest(typ, inner, b)) + tail
    ensures Word(b) + [] == Word(b) && Word(Nest(typ, inner, b)) + [] == Word(Nest(typ, inner, b))
  {
  }

  lemma {:induction false} NodesConcat(xs: seq<Event>, ys: seq<Event>)
    ensures Nodes(xs + ys) == Nodes(xs) + Nodes(ys)
    decreases |xs|
  {
    if xs == [] { assert xs + ys == ys; } else { assert (xs + ys)[1..] == xs[1..] + ys; NodesConcat(xs[1..], ys); }
  }

  lemma NodesNest(typ: TokenType, inner: Balanced, rest: Balanced)
    ensures Nodes(Word(Nest(typ, inner, rest))) == 1 + Nodes(Word(inner)) + Nodes(Word(rest))
  {
    NodesConcat([Push(typ)] + Word(inner) + [Pop(typ)], Word(rest));
    NodesConcat([Push(typ)] + Word(inner), [Pop(typ)]);
    NodesConcat([Push(typ)], Word(inner));
  }

  /** jsmn_parse succeeds exactly on the lexically sound texts whose brackets are balanced and whose nodes
      fit; it then returns the number of nodes. */
  lemma AcceptsExactly(js: string, slots: nat)
    ensures var code := Parse(BackwardScan, js, Slots(slots), Start).code;
            && (code >= 0 <==> exists b :: Events(js, 0) == Some(Word(b)) && Nodes(Word(b)) <= slots)
            && (code >= 0 ==> code == Nodes(Events(js, 0).value))
  {
    var code := Parse(BackwardScan, js, Slots(slots), Start).code;
    RunIsAutomaton(js, slots, Start);
    var evs := Events(js, 0);
    if evs.Some? { FeedCounts(Stack(0, []), evs.value); }
    if code >= 0 {
      var b, rest := Derive(Stack(0, []), evs.value);
      assert evs == Some(Word(b));
    }
    forall b | evs == Some(Word(b)) && Nodes(Word(b)) <= slots ensures code >= 0 {
      FeedBalanced(Stack(0, []), b);
    }
  }

  /** What the automaton says of the text from position p on: the number of nodes, -1 when they do not fit, -2 for an
      illegal character or a closing bracket that closes nothing, -3 when the text ends too early; whichever is
      met first. */
  function Verdict(js: string, slots: nat, p: nat, st: Stack): int
    decreases |js| - p
  {
    if TextEnds(js, p) then if st.frames == [] then st.next else -3
    else
      var l := Look(js, p);
      if l.Bad? then l.code
      else
        var fed := FeedAll(st, l.evs);
        if fed.None? then -2
        else if fed.value.next > slots then -1
        else Verdict(js, slots, l.after, fed.value)
  }

  lemma {:induction false} RunGivesVerdict(js: string, slots: nat, s: State)
    requires Valid(Slots(slots), s) && s.count == s.next
    ensures Run(BackwardScan, js, Slots(slots), s).code == Verdict(js, slots, s.pos, StackOf(s))
    decreases |js| - s.pos
  {
    hide Step, Look, FeedAll;
    if !AtEnd(js, s.pos) {
      StepIsFeed(js, slots, s);
      var m := Step(BackwardScan, js, Slots(slots), s);
      if m.Go? { RunGivesVerdict(js, slots, m.s); }
    }
  }

  /** For every text and number of slots, jsmn_parse returns what the automaton says. */
  lemma CodesExactly(js: string, slots: nat)
    ensures Parse(BackwardScan, js, Slots(slots), Start).code == Verdict(js, slots, 0, Stack(0, []))
  {
    RunGivesVerdict(js, slots, Start);
  }

  // ---------------------------------------------------------------- the shape of the token list

  function SizeSum(toks: seq<Token>): int { if toks == [] then 0 else SizeSum(toks[..|toks| - 1]) + toks[|toks| - 1].size }

  /** Later token j lies after token i, or inside it. */
  predicate After(toks: seq<Token>, i: nat, j: nat)
    requires i < |toks| && j < |toks|
  {
    && toks[i].start < toks[j].start
    && (Open(toks[i]) || toks[i].end <= toks[j].start || (!Open(toks[j]) && toks[j].end <= toks[i].end))
  }

  /** Spans lie in the text read so far, starts increase, and any two spans are nested or disjoint. */
  ghost predicate Nested(toks: seq<Token>, pos: nat) {
    && (forall i :: 0 <= i < |toks| ==> toks[i].start < pos && (Open(toks[i]) || toks[i].start <= toks[i].end <= pos))
    && (forall i, j :: 0 <= i < j < |toks| ==> After(toks, i, j))
  }

  lemma {:induction false} SizeSumBump(toks: seq<Token>, i: nat)
    requires i < |toks|
    ensures SizeSum(Bump(toks, i)) == SizeSum(toks) + 1
    decreases |toks|
  {
    var last := |toks| - 1;
    if i == last {
      assert Bump(toks, i)[..last] == toks[..last];
    } else {
      assert Bump(toks, i)[..last] == Bump(toks[..last], i);
      SizeSumBump(toks[..last], i);
    }
  }

  lemma {:induction false} SizeSumSame(xs: seq<Token>, ys: seq<Token>)
    requires |xs| == |ys| && forall i :: 0 <= i < |xs| ==> xs[i].size == ys[i].size
    ensures SizeSum(xs) == SizeSum(ys)
    decreases |xs|
  {
    if xs != [] { SizeSumSame(xs[..|xs| - 1], ys[..|ys| - 1]); }
  }

  lemma SizeSumAdd(s: State, t: Token)
    requires -1 <= s.super < |s.toks| && t.size == 0
    ensures SizeSum(Bump(s.toks, s.super) + [t]) == SizeSum(s.toks) + (if s.super == -1 then 0 else 1)
  {
    var r := Bump(s.toks, s.super) + [t];
    assert r[..|r| - 1] == Bump(s.toks, s.super);
    if s.super != -1 { SizeSumBump(s.toks, s.super); }
  }

  lemma NestedAdd(toks: seq<Token>, pos: nat, super: int, t: Token, pos': nat)
    requires Nested(toks, pos) && -1 <= super < |toks|
    requires pos <= t.start < pos' && (Open(t) || t.start <= t.end <= pos')
    ensures Nested(Bump(toks, super) + [t], pos')
  {
    var r := Bump(toks, super) + [t];
    forall i, j | 0 <= i < j < |r| ensures After(r, i, j) {
      if j < |toks| { assert After(toks, i, j); } else { assert toks[i].start < pos; }
    }
  }

  lemma NestedClose(toks: seq<Token>, pos: nat)
    requires Nested(toks, pos) && LastOpen(toks) != -1
    ensures Nested(toks[LastOpen(toks) := toks[LastOpen(toks)].(end := pos + 1)], pos + 1)
  {
    var k := LastOpen(toks);
    var r := toks[k := toks[k].(end := pos + 1)];
    forall i, j | 0 <= i < j < |r| ensures After(r, i, j) { assert After(toks, i, j); }
  }

  lemma NestedLater(toks: seq<Token>, pos: nat, pos': nat)
    requires Nested(toks, pos) && pos <= pos'
    ensures Nested(toks, pos')
  {
  }

  lemma ShapeStep(js: string, slots: nat, s: State)
    requires Valid(Slots(slots), s) && !AtEnd(js, s.pos) && Nested(s.toks, s.pos)
    ensures var m := Step(BackwardScan, js, Slots(slots), s);
            var l := Look(js, s.pos);
            m.Go? && l.Seen? ==>
              && Nested(m.s.toks, m.s.pos)
              && SizeSum(m.s.toks) + Orphan(s, l.evs) - m.s.next == SizeSum(s.toks) - s.next
  {
    hide LastOpen, Nested, SizeSum;
    var m := Step(BackwardScan, js, Slots(slots), s);
    var l := Look(js, s.pos);
    if m.Go? && l.Seen? {
      if l.evs == [] {
        NestedLater(s.toks, s.pos, m.s.pos);
      } else if l.evs[0].Pop? {
        NestedClose(s.toks, s.pos);
        SizeSumSame(m.s.toks, s.toks);
      } else {
        var t := m.s.toks[s.next];
        assert m.s.toks == Bump(s.toks, s.super) + [t];
        NestedAdd(s.toks, s.pos, s.super, t, m.s.pos);
        SizeSumAdd(s, t);
      }
    }
  }

  /** At every loop head: starts strictly increase, spans are pairwise nested or disjoint, and every token is
      counted once, on its superior or as an orphan. */
  lemma {:induction false} TokensNested(js: string, slots: nat, n: nat)
    ensures var h := Turns(js, slots, Start, n);
            h.Some? ==>
              && Nested(h.value.s.toks, h.value.s.pos)
              && SizeSum(h.value.s.toks) + h.value.orphans == h.value.s.next == |h.value.s.toks|
  {
    hide Step, Look, Nested;
    if n == 0 {
      assert Nested([], 0) by { NestedEmpty(); }
    } else {
      var h := Turns(js, slots, Start, n - 1);
      TokensNested(js, slots, n - 1);
      if h.Some? && !AtEnd(js, h.value.s.pos) { ShapeStep(js, slots, h.value.s); }
    }
  }

  lemma NestedEmpty()
    ensures Nested([], 0)
  {
  }

  /** The state a call leaves is its last loop head, so all of the above holds of every outcome. */
  lemma {:induction false} OutcomeIsHead(js: string, slots: nat, n: nat) returns (k: nat)
    requires Turns(js, slots, Start, n).Some?
    ensures var s := Turns(js, slots, Start, n).value.s;
            var h := Turns(js, slots, Start, k);
            h.Some? && Run(BackwardScan, js, Slots(slots), s).s == h.value.s
    decreases |js| - Turns(js, slots, Start, n).value.s.pos
  {
    hide Step, Look;
    var s := Turns(js, slots, Start, n).value.s;
    k := n;
    if !AtEnd(js, s.pos) && Step(BackwardScan, js, Slots(slots), s).Go? {
      StepIsFeed(js, slots, s);
      k := OutcomeIsHead(js, slots, n + 1);
    }
  }
}
