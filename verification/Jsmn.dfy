/** The jsmn tokenizer (jsmn.c) as a step function on values.

    One call of `Step` is one turn of the loop of jsmn_parse; `Run` is the loop.  The class in
    JsmnParser.dfy updates a parser and a token array in place and is proved to compute `Run`.
    The text is what the loop can see: the first `len` characters of the C buffer, in which a NUL
    ends the input early.  Both builds are covered: the default one, which scans the token array
    backwards for the innermost open bracket, and JSMN_PARENT_LINKS, which follows parent indices. */
module Jsmn {
  import opened Basics

  datatype TokenType = Undefined | Object | Array | String | Primitive

  /** `parent` exists only in the parent-links build; the other build leaves it at -1. */
  datatype Token = Token(typ: TokenType, start: int, end: int, size: int, parent: int)

  datatype Build = BackwardScan | ParentLinks

  /** The `tokens` and `num_tokens` arguments: NULL (a dry run), or so many slots. */
  datatype Room = NoTokens | Slots(count: nat)

  const NOMEM := -1
  const INVAL := -2
  const PART := -3

  // ---------------------------------------------------------------- lexical scanning

  predicate Blank(c: char) { c == '\t' || c == '\r' || c == '\n' || c == ' ' }

  predicate EndsPrimitive(c: char) { Blank(c) || c == ':' || c == ',' || c == ']' || c == '}' }

  predicate AtEnd(js: string, i: nat) { i >= |js| || js[i] == '\0' }

  predicate Hex(c: char) { '0' <= c <= '9' || 'A' <= c <= 'F' || 'a' <= c <= 'f' }

  predicate SimpleEscape(c: char) {
    c == '\"' || c == '/' || c == '\\' || c == 'b' || c == 'f' || c == 'r' || c == 'n' || c == 't'
  }

  /** Where the primitive running through position i ends; None when it holds an illegal character. */
  function PrimitiveEnd(js: string, i: nat): (r: Option<nat>)
    ensures r.Some? ==> i <= r.value && (i <= |js| ==> r.value <= |js|)
    ensures r.Some? && !AtEnd(js, i) && !EndsPrimitive(js[i]) ==> i < r.value
    decreases |js| - i
  {
    if AtEnd(js, i) || EndsPrimitive(js[i]) then Some(i)
    else if js[i] < ' ' || js[i] >= 127 as char then None
    else PrimitiveEnd(js, i + 1)
  }

  /** Skips up to k hex digits; None when another character is in the way. */
  function SkipHex(js: string, i: nat, k: nat): (r: Option<nat>)
    ensures r.Some? ==> i <= r.value && (i <= |js| ==> r.value <= |js|)
    decreases k
  {
    if k == 0 || AtEnd(js, i) then Some(i)
    else if !Hex(js[i]) then None
    else SkipHex(js, i + 1, k - 1)
  }

  datatype StringScan = Quote(at: nat) | BadString | OpenString

  /** Scans a string body from position i to its closing quote. */
  function StringEnd(js: string, i: nat): (r: StringScan)
    ensures r.Quote? ==> i <= r.at < |js| && js[r.at] == '\"'
    decreases |js| - i
  {
    if AtEnd(js, i) then OpenString
    else if js[i] == '\"' then Quote(i)
    else if js[i] == '\\' && i + 1 < |js| then
      if SimpleEscape(js[i + 1]) then StringEnd(js, i + 2)
      else if js[i + 1] == 'u' then
        var h := SkipHex(js, i + 2, 4);
        if h.None? then BadString else StringEnd(js, h.value)
      else BadString
    else StringEnd(js, i + 1)
  }

  // ---------------------------------------------------------------- the parser's loop

  /** The parser (pos, toknext, toksuper), the allocated tokens, and the local `count`. */
  datatype State = State(pos: nat, next: nat, super: int, toks: seq<Token>, count: int)

  const Start: State := State(0, 0, -1, [], 0)

  predicate Container(t: Token) { t.typ == Object || t.typ == Array }

  predicate Open(t: Token) { t.start != -1 && t.end == -1 }

  /** What jsmn_parse relies on between calls. */
  predicate Valid(room: Room, s: State) {
    && -1 <= s.super < s.next
    && (if room.Slots? then |s.toks| == s.next <= room.count else s.toks == [])
    && (forall i :: 0 <= i < |s.toks| ==> GoodToken(s.toks[i], i))
  }

  predicate GoodToken(t: Token, i: int) {
    t.start >= 0 && (Open(t) ==> Container(t)) && -1 <= t.parent < i
  }

  /** The backward scan: the last open token, or -1. */
  function LastOpen(toks: seq<Token>): (r: int)
    ensures -1 <= r < |toks|
    ensures 0 <= r ==> Open(toks[r])
    ensures forall j :: r < j < |toks| ==> !Open(toks[j])
  {
    if toks == [] then -1
    else if Open(toks[|toks| - 1]) then |toks| - 1
    else LastOpen(toks[..|toks| - 1])
  }

  /** The walk along parent links from token i: the first open token met, or the last token of the chain. */
  function Climb(toks: seq<Token>, i: nat): (r: nat)
    requires i < |toks|
    requires forall k :: 0 <= k < |toks| ==> GoodToken(toks[k], k)
    ensures r <= i
    ensures Open(toks[r]) || toks[r].parent == -1
  {
    assert GoodToken(toks[i], i);
    if Open(toks[i]) || toks[i].parent == -1 then i else Climb(toks, toks[i].parent)
  }

  function Bump(toks: seq<Token>, super: int): (r: seq<Token>)
    requires -1 <= super < |toks|
    ensures |r| == |toks|
    ensures forall i :: 0 <= i < |r| ==> r[i] == toks[i].(size := r[i].size)
  {
    if super == -1 then toks else toks[super := toks[super].(size := toks[super].size + 1)]
  }

  /** Allocates and fills one token, and counts it on its superior. */
  function Add(build: Build, s: State, typ: TokenType, start: int, end: int): State
    requires -1 <= s.super < |s.toks|
  {
    s.(toks := Bump(s.toks, s.super) + [Token(typ, start, end, 0, if build.ParentLinks? then s.super else -1)],
       next := s.next + 1,
       count := s.count + 1)
  }

  /** One turn of the loop: carry on, or return with an error code. */
  datatype Move = Go(s: State) | Halt(code: int)

  function StepOpen(build: Build, room: Room, s: State, typ: TokenType): (m: Move)
    requires Valid(room, s) && (typ == Object || typ == Array)
    ensures m.Go? ==> Valid(room, m.s) && m.s.pos == s.pos + 1
  {
    if room.NoTokens? then Go(s.(pos := s.pos + 1, count := s.count + 1))
    else if s.next >= room.count then Halt(NOMEM)
    else Go(Add(build, s, typ, s.pos, -1).(super := s.next, pos := s.pos + 1))
  }

  function StepClose(build: Build, room: Room, s: State, typ: TokenType): (m: Move)
    requires Valid(room, s)
    ensures m.Go? ==> Valid(room, m.s) && m.s.pos == s.pos + 1
  {
    assert forall i :: 0 <= i < |s.toks| ==> GoodToken(s.toks[i], i);
    if room.NoTokens? then Go(s.(pos := s.pos + 1))
    else if build.ParentLinks? then
      if s.next < 1 then Halt(INVAL)
      else
        var i := Climb(s.toks, s.next - 1);
        if Open(s.toks[i]) then
          if s.toks[i].typ != typ then Halt(INVAL)
          else Go(s.(toks := s.toks[i := s.toks[i].(end := s.pos + 1)], super := s.toks[i].parent, pos := s.pos + 1))
        else if s.toks[i].typ != typ || s.super == -1 then Halt(INVAL)
        else Go(s.(pos := s.pos + 1))
    else
      var i := LastOpen(s.toks);
      if i == -1 || s.toks[i].typ != typ then Halt(INVAL)
      else
        Go(s.(toks := s.toks[i := s.toks[i].(end := s.pos + 1)], super := LastOpen(s.toks[..i]), pos := s.pos + 1))
  }

  function StepComma(build: Build, room: Room, s: State): (m: Move)
    requires Valid(room, s)
    ensures m.Go? && Valid(room, m.s) && m.s.pos == s.pos + 1
  {
    assert s.super != -1 && room.Slots? ==> GoodToken(s.toks[s.super], s.super);
    if room.NoTokens? || s.super == -1 || Container(s.toks[s.super]) then Go(s.(pos := s.pos + 1))
    else if build.ParentLinks? then Go(s.(super := s.toks[s.super].parent, pos := s.pos + 1))
    else
      var i := LastOpen(s.toks);
      Go(s.(super := if i == -1 then s.super else i, pos := s.pos + 1))
  }

  /** A string or primitive token of text start..end; the loop goes on at position `after`. */
  function StepLeaf(build: Build, room: Room, s: State, typ: TokenType, start: nat, end: nat, after: nat): (m: Move)
    requires Valid(room, s)
    ensures m.Go? ==> Valid(room, m.s) && m.s.pos == after
  {
    if room.NoTokens? then Go(s.(pos := after, count := s.count + 1))
    else if s.next >= room.count then Halt(NOMEM)
    else Go(Add(build, s, typ, start, end).(pos := after))
  }

  function Step(build: Build, js: string, room: Room, s: State): (m: Move)
    requires Valid(room, s) && !AtEnd(js, s.pos)
    ensures m.Go? ==> Valid(room, m.s) && s.pos < m.s.pos <= |js|
  {
    var c := js[s.pos];
    if c == '{' || c == '[' then StepOpen(build, room, s, if c == '{' then Object else Array)
    else if c == '}' || c == ']' then StepClose(build, room, s, if c == '}' then Object else Array)
    else if c == '\"' then
      match StringEnd(js, s.pos + 1)
      case Quote(q) => StepLeaf(build, room, s, String, s.pos + 1, q, q + 1)
      case BadString => Halt(INVAL)
      case OpenString => Halt(PART)
    else if Blank(c) then Go(s.(pos := s.pos + 1))
    else if c == ':' then Go(s.(super := s.next - 1, pos := s.pos + 1))
    else if c == ',' then StepComma(build, room, s)
    else
      var e := PrimitiveEnd(js, s.pos);
      if e.None? then Halt(INVAL) else StepLeaf(build, room, s, Primitive, s.pos, e.value, e.value)
  }

  /** What jsmn_parse returns, with the parser and the tokens it leaves behind. */
  datatype Outcome = Outcome(code: int, s: State)

  function Run(build: Build, js: string, room: Room, s: State): (r: Outcome)
    requires Valid(room, s)
    ensures Valid(room, r.s) && s.pos <= r.s.pos
    decreases |js| - s.pos
  {
    if AtEnd(js, s.pos) then
      if room.Slots? && LastOpen(s.toks) != -1 then Outcome(PART, s) else Outcome(s.count, s)
    else
      match Step(build, js, room, s)
      case Halt(code) => Outcome(code, s)
      case Go(s') => Run(build, js, room, s')
  }

  /** A call of jsmn_parse: the local `count` starts at toknext. */
  function Parse(build: Build, js: string, room: Room, s: State): Outcome
    requires Valid(room, s)
  {
    Run(build, js, room, s.(count := s.next))
  }
}
