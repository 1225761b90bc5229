/** jsmn.c as it is written: a parser object that advances over the text and fills a token array in
    place.  Every method is proved against the step function of module Jsmn. */
module JsmnParser {
  import opened Basics
  import opened Jsmn

  class Parser {
    const build: Build
    var pos: nat
    var toknext: nat
    var toksuper: int

    /** jsmn_init */
    constructor (build: Build)
      ensures this.build == build
      ensures forall count :: View(null, count) == Start.(count := count)
    {
      this.build := build;
      pos, toknext, toksuper := 0, 0, -1;
    }

    static function RoomOf(tokens: array?<Token>, numTokens: nat): Room {
      if tokens == null then NoTokens else Slots(numTokens)
    }

    function View(tokens: array?<Token>, count: int): State
      requires tokens != null ==> toknext <= tokens.Length
      reads this, tokens
    {
      State(pos, toknext, toksuper, if tokens == null then [] else tokens[..toknext], count)
    }

    ghost predicate Ready(tokens: array?<Token>, numTokens: nat)
      reads this, tokens
    {
      && (tokens != null ==> toknext <= numTokens <= tokens.Length)
      && Valid(RoomOf(tokens, numTokens), View(tokens, 0))
    }

    /** jsmn_alloc_token: the slot's index, or -1; `parent` is left at -1. */
    method AllocToken(tokens: array<Token>, numTokens: nat) returns (tok: int)
      requires toknext <= numTokens <= tokens.Length
      modifies this`toknext, tokens
      ensures old(toknext) >= numTokens ==> tok == -1 && toknext == old(toknext) && tokens[..] == old(tokens[..])
      ensures old(toknext) < numTokens ==> tok == old(toknext) && toknext == tok + 1
      ensures old(toknext) < numTokens ==>
                tokens[..] == old(tokens[..])[tok := Token(old(tokens[toknext]).typ, -1, -1, 0, -1)]
    {
      if toknext >= numTokens {
        return -1;
      }
      tok := toknext;
      toknext := toknext + 1;
      tokens[tok] := tokens[tok].(start := -1, end := -1);
      tokens[tok] := tokens[tok].(size := 0);
      tokens[tok] := tokens[tok].(parent := -1);
    }

    /** Allocates a token and fills it (jsmn_fill_token), as both leaf parsers do at their end. */
    method FillNext(tokens: array<Token>, numTokens: nat, typ: TokenType, start: nat, end: nat) returns (ok: bool)
      requires toknext <= numTokens <= tokens.Length
      modifies this`toknext, tokens
      ensures ok == (old(toknext) < numTokens)
      ensures !ok ==> toknext == old(toknext) && tokens[..] == old(tokens[..])
      ensures ok ==> toknext == old(toknext) + 1
      ensures ok ==> tokens[..] == old(tokens[..])[old(toknext) :=
                       Token(typ, start, end, 0, if build.ParentLinks? then toksuper else -1)]
    {
      var token := AllocToken(tokens, numTokens);
      if token == -1 {
        return false;
      }
      tokens[token] := tokens[token].(typ := typ, start := start, end := end, size := 0);
      if build.ParentLinks? {
        tokens[token] := tokens[token].(parent := toksuper);
      }
      return true;
    }

    /** jsmn_parse_primitive: pos is left on the last character of the primitive. */
    method ParsePrimitive(js: string, tokens: array?<Token>, numTokens: nat) returns (r: int)
      requires Ready(tokens, numTokens)
      requires !AtEnd(js, pos) && !EndsPrimitive(js[pos])
      modifies this`pos, this`toknext, tokens
      ensures tokens != null ==> toknext <= numTokens
      ensures var e := PrimitiveEnd(js, old(pos));
              if e.None? then r == INVAL && View(tokens, 0) == old(View(tokens, 0))
              else if tokens == null then r == 0 && View(tokens, 0) == old(View(tokens, 0)).(pos := e.value - 1)
              else if old(toknext) >= numTokens then r == NOMEM && View(tokens, 0) == old(View(tokens, 0))
              else
                && r == 0 && pos == e.value - 1 && toknext == old(toknext) + 1
                && tokens[..] == old(tokens[..])[old(toknext) :=
                     Token(Primitive, old(pos), e.value, 0, if build.ParentLinks? then toksuper else -1)]
      ensures r != 0 && tokens != null ==> tokens[..] == old(tokens[..])
    {
      var start := pos;
      while pos < |js| && js[pos] != '\0'
        invariant start <= pos <= |js|
        invariant PrimitiveEnd(js, pos) == PrimitiveEnd(js, start)
        invariant pos == start || !EndsPrimitive(js[start])
        invariant toknext == old(toknext) && (tokens != null ==> tokens[..] == old(tokens[..]))
      {
        if EndsPrimitive(js[pos]) {
          break;
        }
        if js[pos] < ' ' || js[pos] >= 127 as char {
          pos := start;
          return INVAL;
        }
        pos := pos + 1;
      }
      if tokens == null {
        pos := pos - 1;
        return 0;
      }
      var ok := FillNext(tokens, numTokens, Primitive, start, pos);
      if !ok {
        pos := start;
        return NOMEM;
      }
      pos := pos - 1;
      return 0;
    }

    /** The loop over the four hex digits of a \u escape. */
    method SkipHexDigits(js: string) returns (ok: bool)
      modifies this`pos
      ensures ok == SkipHex(js, old(pos), 4).Some?
      ensures ok ==> pos == SkipHex(js, old(pos), 4).value
    {
      var i := 0;
      while i < 4 && pos < |js| && js[pos] != '\0'
        invariant 0 <= i <= 4
        invariant SkipHex(js, pos, 4 - i) == SkipHex(js, old(pos), 4)
      {
        if !Hex(js[pos]) {
          return false;
        }
        pos := pos + 1;
        i := i + 1;
      }
      return true;
    }

    /** jsmn_parse_string: pos is left on the closing quote. */
    method ParseString(js: string, tokens: array?<Token>, numTokens: nat) returns (r: int)
      requires Ready(tokens, numTokens)
      requires !AtEnd(js, pos)
      modifies this`pos, this`toknext, tokens
      ensures tokens != null ==> toknext <= numTokens
      ensures match StringEnd(js, old(pos) + 1)
              case BadString => r == INVAL && View(tokens, 0) == old(View(tokens, 0))
              case OpenString => r == PART && View(tokens, 0) == old(View(tokens, 0))
              case Quote(q) =>
                if tokens == null then r == 0 && View(tokens, 0) == old(View(tokens, 0)).(pos := q)
                else if old(toknext) >= numTokens then r == NOMEM && View(tokens, 0) == old(View(tokens, 0))
                else
                  && r == 0 && pos == q && toknext == old(toknext) + 1
                  && tokens[..] == old(tokens[..])[old(toknext) :=
                       Token(String, old(pos) + 1, q, 0, if build.ParentLinks? then toksuper else -1)]
      ensures r != 0 && tokens != null ==> tokens[..] == old(tokens[..])
    {
      var start := pos;
      pos := pos + 1;
      while pos < |js| && js[pos] != '\0'
        invariant start < pos
        invariant StringEnd(js, pos) == StringEnd(js, start + 1)
        invariant toknext == old(toknext) && (tokens != null ==> tokens[..] == old(tokens[..]))
        decreases |js| - pos
      {
        var c := js[pos];
        if c == '\"' {
          if tokens == null {
            return 0;
          }
          var ok := FillNext(tokens, numTokens, String, start + 1, pos);
          if !ok {
            pos := start;
            return NOMEM;
          }
          return 0;
        }
        if c == '\\' && pos + 1 < |js| {
          pos := pos + 1;
          if SimpleEscape(js[pos]) {
          } else if js[pos] == 'u' {
            pos := pos + 1;
            var ok := SkipHexDigits(js);
            if !ok {
              pos := start;
              return INVAL;
            }
            pos := pos - 1;
          } else {
            pos := start;
            return INVAL;
          }
        }
        pos := pos + 1;
      }
      pos := start;
      return PART;
    }

    /** A bracket's new token: counted on its superior, linked to it, and given its type and start. */
    method HangBracket(tokens: array<Token>, token: nat, typ: TokenType)
      requires -1 <= toksuper < token < tokens.Length
      modifies tokens
      ensures tokens[..] == Bump(old(tokens[..]), toksuper)[token := old(tokens[token]).(typ := typ, start := pos,
                              parent := if build.ParentLinks? && toksuper != -1 then toksuper else old(tokens[token]).parent)]
    {
      if toksuper != -1 {
        tokens[toksuper] := tokens[toksuper].(size := tokens[toksuper].size + 1);
        if build.ParentLinks? {
          tokens[token] := tokens[token].(parent := toksuper);
        }
      }
      tokens[token] := tokens[token].(typ := typ);
      tokens[token] := tokens[token].(start := pos);
    }

    /** The '{' and '[' cases of the loop, when there is a token array. */
    method OpenBracket(tokens: array<Token>, numTokens: nat, typ: TokenType) returns (ok: bool)
      requires Ready(tokens, numTokens)
      requires typ == Object || typ == Array
      modifies this`toknext, this`toksuper, tokens
      ensures toknext <= numTokens
      ensures forall count ::
                ok ==> StepOpen(build, Slots(numTokens), old(View(tokens, count)), typ)
                       == Go(View(tokens, count + 1).(pos := pos + 1))
      ensures !ok ==> old(toknext) >= numTokens && View(tokens, 0) == old(View(tokens, 0))
      ensures tokens[toknext..] == old(tokens[..])[toknext..]
    {
      hide LastOpen, Climb;
      var token := AllocToken(tokens, numTokens);
      if token == -1 {
        return false;
      }
      HangBracket(tokens, token, typ);
      ghost var was := old(View(tokens, 0));
      assert tokens[..toknext] == Bump(was.toks, was.super)
             + [Token(typ, pos, -1, 0, if build.ParentLinks? then was.super else -1)];
      toksuper := toknext - 1;
      return true;
    }

    /** The search of the backward-scan build for an open token at or below index `from`. */
    method ScanBack(tokens: array<Token>, from: int) returns (i: int)
      requires -1 <= from < tokens.Length
      ensures i == LastOpen(tokens[..from + 1])
    {
      i := from;
      while i >= 0
        invariant -1 <= i <= from
        invariant LastOpen(tokens[..i + 1]) == LastOpen(tokens[..from + 1])
      {
        if tokens[i].start != -1 && tokens[i].end == -1 {
          return;
        }
        assert tokens[..i + 1][..i] == tokens[..i];
        i := i - 1;
      }
    }

    /** The '}' and ']' cases of the default build. */
    method CloseByScan(tokens: array<Token>, typ: TokenType) returns (ok: bool)
      requires toknext <= tokens.Length
      modifies this`toksuper, tokens
      ensures var was := old(tokens[..toknext]);
              var i := LastOpen(was);
              && ok == (i != -1 && was[i].typ == typ)
              && (ok ==> toksuper == LastOpen(was[..i]) && tokens[..] == old(tokens[..])[i := was[i].(end := pos + 1)])
              && (!ok ==> toksuper == old(toksuper) && tokens[..] == old(tokens[..]))
    {
      ghost var was := tokens[..toknext];
      var i := ScanBack(tokens, toknext - 1);
      if i >= 0 {
        if tokens[i].typ != typ {
          return false;
        }
        toksuper := -1;
        tokens[i] := tokens[i].(end := pos + 1);
      }
      if i == -1 {
        return false;
      }
      assert tokens[..i + 1][..i] == was[..i];
      i := ScanBack(tokens, i);
      if i >= 0 {
        toksuper := i;
      }
      return true;
    }

    /** The '}' and ']' cases of the JSMN_PARENT_LINKS build. */
    method CloseByLinks(tokens: array<Token>, numTokens: nat, typ: TokenType) returns (ok: bool)
      requires Ready(tokens, numTokens) && build.ParentLinks?
      modifies this`toksuper, tokens
      ensures forall count :: StepClose(build, Slots(numTokens), old(View(tokens, count)), typ)
                              == if ok then Go(View(tokens, count).(pos := pos + 1)) else Halt(INVAL)
      ensures !ok ==> View(tokens, 0) == old(View(tokens, 0))
      ensures tokens[toknext..] == old(tokens[..])[toknext..]
    {
      ghost var was := tokens[..toknext];
      if toknext < 1 {
        return false;
      }
      var i := toknext - 1;
      while true
        invariant 0 <= i < toknext
        invariant Climb(was, i) == Climb(was, toknext - 1)
        invariant tokens[..] == old(tokens[..]) && toksuper == old(toksuper)
        decreases i
      {
        assert tokens[i] == was[i] && GoodToken(was[i], i);
        if tokens[i].start != -1 && tokens[i].end == -1 {
          if tokens[i].typ != typ {
            return false;
          }
          tokens[i] := tokens[i].(end := pos + 1);
          assert tokens[..toknext] == was[i := was[i].(end := pos + 1)];
          toksuper := tokens[i].parent;
          break;
        }
        if tokens[i].parent == -1 {
          if tokens[i].typ != typ || toksuper == -1 {
            return false;
          }
          break;
        }
        i := tokens[i].parent;
      }
      return true;
    }

    /** The ',' case, when there is a token array. */
    method Comma(tokens: array<Token>, numTokens: nat)
      requires Ready(tokens, numTokens)
      modifies this`toksuper
      ensures forall count :: StepComma(build, Slots(numTokens), old(View(tokens, count)))
                              == Go(View(tokens, count).(pos := pos + 1))
    {
      if toksuper != -1 && tokens[toksuper].typ != Array && tokens[toksuper].typ != Object {
        if build.ParentLinks? {
          toksuper := tokens[toksuper].parent;
        } else {
          var i := toknext - 1;
          while i >= 0
            invariant -1 <= i < toknext
            invariant LastOpen(tokens[..i + 1]) == LastOpen(tokens[..toknext])
          {
            if tokens[i].typ == Array || tokens[i].typ == Object {
              if tokens[i].start != -1 && tokens[i].end == -1 {
                toksuper := i;
                break;
              }
            }
            assert GoodToken(tokens[..toknext][i], i);
            assert tokens[..i + 1][..i] == tokens[..i];
            i := i - 1;
          }
        }
      }
    }

    /** One turn of jsmn_parse's loop took the step the step function takes, but for a final pos++ still
        due when `lag` is 1; a negative r is handed to the caller and leaves parser and tokens as they were. */
    twostate predicate Turned(js: string, tokens: array?<Token>, numTokens: nat, count: int, r: int, count': int, lag: nat)
      reads this, tokens
    {
      && old(Ready(tokens, numTokens)) && !AtEnd(js, old(pos))
      && (tokens != null ==> old(toknext) <= toknext <= tokens.Length && tokens[toknext..] == old(tokens[..])[toknext..])
      && match Step(build, js, RoomOf(tokens, numTokens), old(View(tokens, count)))
         case Go(s) => r == 0 && s == View(tokens, count').(pos := pos + lag)
         case Halt(code) => r == code < 0 && View(tokens, count) == old(View(tokens, count))
    }

    method Bracket(js: string, tokens: array?<Token>, numTokens: nat, count: int) returns (r: int, count': int)
      requires Ready(tokens, numTokens) && !AtEnd(js, pos)
      requires js[pos] == '{' || js[pos] == '[' || js[pos] == '}' || js[pos] == ']'
      modifies this, tokens
      ensures Turned(js, tokens, numTokens, count, r, count', 1)
    {
      ghost var s := View(tokens, count);
      var c := js[pos];
      r, count' := 0, count;
      if c == '{' || c == '[' {
        count' := count + 1;
        if tokens != null {
          var ok := OpenBracket(tokens, numTokens, if c == '{' then Object else Array);
          r := if ok then 0 else NOMEM;
        }
      } else if tokens != null {
        var ok;
        if build.ParentLinks? {
          ok := CloseByLinks(tokens, numTokens, if c == '}' then Object else Array);
        } else {
          ok := CloseByScan(tokens, if c == '}' then Object else Array);
          assert ok ==> tokens[..toknext] == s.toks[LastOpen(s.toks) := s.toks[LastOpen(s.toks)].(end := pos + 1)];
        }
        r := if ok then 0 else INVAL;
      }
    }

    /** The string and primitive cases: parse the leaf, count it, and count it on its superior. */
    method Leaf(js: string, tokens: array?<Token>, numTokens: nat, count: int) returns (r: int, count': int)
      requires Ready(tokens, numTokens) && !AtEnd(js, pos)
      requires js[pos] == '\"' || (!EndsPrimitive(js[pos]) && js[pos] != '{' && js[pos] != '[')
      modifies this, tokens
      ensures Turned(js, tokens, numTokens, count, r, count', 1)
    {
      count' := count;
      ghost var s := View(tokens, count);
      if js[pos] == '\"' {
        r := ParseString(js, tokens, numTokens);
      } else {
        r := ParsePrimitive(js, tokens, numTokens);
      }
      if r < 0 {
        return;
      }
      count' := count + 1;
      if toksuper != -1 && tokens != null {
        tokens[toksuper] := tokens[toksuper].(size := tokens[toksuper].size + 1);
      }
      assert tokens != null ==> tokens[..toknext] == Bump(s.toks, s.super) + [tokens[s.next]];
    }

    method Turn(js: string, tokens: array?<Token>, numTokens: nat, count: int) returns (r: int, count': int)
      requires Ready(tokens, numTokens) && !AtEnd(js, pos)
      modifies this, tokens
      ensures Turned(js, tokens, numTokens, count, r, count', 0)
    {
      var c := js[pos];
      r, count' := 0, count;
      if c == '{' || c == '[' || c == '}' || c == ']' {
        r, count' := Bracket(js, tokens, numTokens, count);
      } else if Blank(c) {
      } else if c == ':' {
        toksuper := toknext - 1;
      } else if c == ',' {
        if tokens != null {
          Comma(tokens, numTokens);
        }
      } else {
        r, count' := Leaf(js, tokens, numTokens, count);
      }
      if r == 0 {
        pos := pos + 1;
      }
    }

    /** jsmn_parse: exactly the outcome of the step function, and no slot past the last token is touched. */
    method Parse(js: string, tokens: array?<Token>, numTokens: nat) returns (r: int)
      requires Ready(tokens, numTokens)
      modifies this, tokens
      ensures Ready(tokens, numTokens)
      ensures exists count :: Outcome(r, View(tokens, count))
                == Jsmn.Parse(build, js, RoomOf(tokens, numTokens), old(View(tokens, 0)))
      ensures tokens != null ==> old(toknext) <= toknext && tokens[toknext..] == old(tokens[..])[toknext..]
    {
      hide Step;
      ghost var room := RoomOf(tokens, numTokens);
      ghost var first := View(tokens, toknext);
      var count: int := toknext;
      while pos < |js| && js[pos] != '\0'
        invariant Ready(tokens, numTokens)
        invariant Run(build, js, room, View(tokens, count)) == Run(build, js, room, first)
        invariant tokens != null ==> old(toknext) <= toknext && tokens[toknext..] == old(tokens[..])[toknext..]
        decreases |js| - pos
      {
        ghost var s := View(tokens, count);
        var r', count' := Turn(js, tokens, numTokens, count);
        if r' < 0 {
          assert Run(build, js, room, s) == Outcome(r', View(tokens, count));
          return r';
        }
        count := count';
      }
      ghost var last := View(tokens, count);
      r := count;
      if tokens != null {
        var i := ScanBack(tokens, toknext - 1);
        if i >= 0 {
          r := PART;
        }
      }
      assert Outcome(r, View(tokens, count)) == Run(build, js, room, last);
    }
  }
}
