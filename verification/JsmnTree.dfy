/** The tokenizer on well-formed JSON text: running it over the text of a tree yields exactly the
    tree's tokens, in both builds. */
module JsmnTree {
  import opened Basics
  import opened Jsmn
  import opened JsonGrammar
  import opened JsonText

  // ---------------------------------------------------------------- text at a position

  ghost predicate At(js: string, p: nat, t: string) {
    p + |t| <= |js| && forall i {:trigger t[i]} :: 0 <= i < |t| ==> js[p + i] == t[i]
  }

  lemma AtConcat(js: string, p: nat, a: string, b: string)
    requires At(js, p, a + b)
    ensures At(js, p, a) && At(js, p + |a|, b)
  {
    assert forall i {:trigger a[i]} :: 0 <= i < |a| ==> a[i] == (a + b)[i];
    assert forall i {:trigger b[i]} :: 0 <= i < |b| ==> b[i] == (a + b)[|a| + i];
  }

  predicate Delimited(js: string, i: nat) { AtEnd(js, i) || EndsPrimitive(js[i]) }

  lemma AtDrop(js: string, p: nat, t: string, k: nat)
    requires At(js, p, t) && k <= |t|
    ensures At(js, p + k, t[k..])
  {
    AtConcat(js, p, t[..k], t[k..]) by { assert t[..k] + t[k..] == t; }
  }

  lemma PrimitiveScan(js: string, p: nat, t: string)
    requires At(js, p, t) && (forall i :: 0 <= i < |t| ==> PrimitiveChar(t[i])) && Delimited(js, p + |t|)
    ensures PrimitiveEnd(js, p) == Some(p + |t|)
    decreases |t|
  {
    if t != "" {
      assert js[p] == t[0];
      AtDrop(js, p, t, 1);
      PrimitiveScan(js, p + 1, t[1..]);
    }
  }

  lemma HexScan(js: string, p: nat, body: string)
    requires At(js, p, body) && 2 <= |body| && body[0] == '\\' && body[1] == 'u' && StringBody(body)
    ensures |body| >= 6 && SkipHex(js, p + 2, 4) == Some(p + 6)
    ensures !AtEnd(js, p) && p + 1 < |js| && js[p] == '\\' && js[p + 1] == 'u' && StringBody(body[6..])
  {
    assert js[p] == body[0] && js[p + 1] == body[1];
    assert js[p + 2] == body[2] && js[p + 3] == body[3] && js[p + 4] == body[4] && js[p + 5] == body[5];
    assert SkipHex(js, p + 2, 4) == SkipHex(js, p + 3, 3) == SkipHex(js, p + 4, 2) == SkipHex(js, p + 5, 1) == Some(p + 6);
  }

  lemma {:induction false} StringScan(js: string, p: nat, body: string)
    requires At(js, p, body) && At(js, p + |body|, "\"") && StringBody(body)
    ensures StringEnd(js, p) == Quote(p + |body|)
    decreases |body|
  {
    if body == "" {
      assert js[p] == "\""[0];
    } else if body[0] != '\\' {
      AtDrop(js, p, body, 1);
      StringScan(js, p + 1, body[1..]);
    } else if body[1] == 'u' {
      HexScan(js, p, body);
      AtDrop(js, p, body, 6);
      StringScan(js, p + 6, body[6..]);
    } else {
      assert js[p] == body[0] && js[p + 1] == body[1];
      AtDrop(js, p, body, 2);
      StringScan(js, p + 2, body[2..]);
    }
  }

  // ---------------------------------------------------------------- one turn, and blanks

  lemma RunStep(build: Build, js: string, room: Room, s: State, s': State)
    requires Valid(room, s) && !AtEnd(js, s.pos)
    requires Step(build, js, room, s) == Go(s')
    ensures Valid(room, s') && Run(build, js, room, s) == Run(build, js, room, s')
  {
    hide Step;
  }

  lemma StepBlank(build: Build, js: string, room: Room, s: State)
    requires Valid(room, s) && !AtEnd(js, s.pos) && Blank(js[s.pos])
    ensures Step(build, js, room, s) == Go(s.(pos := s.pos + 1))
  {
  }

  lemma {:induction false} RunBlanks(build: Build, js: string, room: Room, s: State, t: string)
    requires Valid(room, s) && At(js, s.pos, t) && Blanks(t)
    ensures Run(build, js, room, s) == Run(build, js, room, s.(pos := s.pos + |t|))
    decreases |t|
  {
    hide Run, Step;
    if t == "" {
      assert s.(pos := s.pos + |t|) == s;
    } else {
      var s1 := s.(pos := s.pos + 1);
      assert js[s.pos] == t[0];
      StepBlank(build, js, room, s);
      RunStep(build, js, room, s, s1);
      AtDrop(js, s.pos, t, 1);
      RunBlanks(build, js, room, s1, t[1..]);
    }
  }

  // ---------------------------------------------------------------- inside an open bracket

  /** Token a is the innermost open bracket, whichever way the build looks for it. */
  ghost predicate Inside(build: Build, toks: seq<Token>, a: nat) {
    && a < |toks| && Open(toks[a]) && LastOpen(toks) == a
    && (forall i :: 0 <= i < |toks| ==> GoodToken(toks[i], i))
    && (build.ParentLinks? ==> forall i :: a <= i < |toks| ==> Climb(toks, i) == a)
  }

  lemma {:induction false} LastOpenAppend(toks: seq<Token>, block: seq<Token>)
    requires Closed(block)
    ensures LastOpen(toks + block) == LastOpen(toks)
    decreases |block|
  {
    if block == [] {
      assert toks + block == toks;
    } else {
      assert (toks + block)[..|toks + block| - 1] == toks + block[..|block| - 1];
      LastOpenAppend(toks, block[..|block| - 1]);
    }
  }

  lemma {:induction false} LastOpenSame(xs: seq<Token>, ys: seq<Token>)
    requires |xs| == |ys| && forall i :: 0 <= i < |xs| ==> xs[i] == ys[i].(size := xs[i].size)
    ensures LastOpen(xs) == LastOpen(ys)
    decreases |xs|
  {
    if xs != [] { LastOpenSame(xs[..|xs| - 1], ys[..|ys| - 1]); }
  }

  lemma {:induction false} ClimbSame(xs: seq<Token>, ys: seq<Token>, i: nat)
    requires i < |xs| <= |ys| && forall k :: 0 <= k < |xs| ==> xs[k] == ys[k].(size := xs[k].size)
    requires forall k :: 0 <= k < |xs| ==> GoodToken(xs[k], k)
    requires forall k :: 0 <= k < |ys| ==> GoodToken(ys[k], k)
    ensures Climb(xs, i) == Climb(ys, i)
    decreases i
  {
    assert GoodToken(xs[i], i);
    if !Open(xs[i]) && xs[i].parent != -1 { ClimbSame(xs, ys, xs[i].parent); }
  }

  lemma InsideSame(build: Build, xs: seq<Token>, ys: seq<Token>, a: nat)
    requires Inside(build, xs, a)
    requires |xs| == |ys| && forall i :: 0 <= i < |xs| ==> xs[i] == ys[i].(size := xs[i].size)
    ensures Inside(build, ys, a)
  {
    LastOpenSame(xs, ys);
    assert forall i :: 0 <= i < |xs| ==> GoodToken(xs[i], i) ==> GoodToken(ys[i], i);
    if build.ParentLinks? {
      forall i | a <= i < |ys| ensures Climb(ys, i) == a { ClimbSame(xs, ys, i); }
    }
  }

  lemma {:induction false} ClimbBlock(toks: seq<Token>, block: seq<Token>, super: nat, a: nat, i: nat)
    requires Inside(ParentLinks, toks, a) && a <= super < |toks|
    requires Closed(block) && Chained(ParentLinks, block, |toks|, super)
    requires a <= i < |toks + block|
    requires forall k :: 0 <= k < |toks + block| ==> GoodToken((toks + block)[k], k)
    ensures Climb(toks + block, i) == a
    decreases i
  {
    if i < |toks| {
      ClimbSame(toks, toks + block, i);
    } else {
      assert (toks + block)[i] == block[i - |toks|];
      ClimbBlock(toks, block, super, a, (toks + block)[i].parent);
    }
  }

  /** A closed tree hung below token `super` of the open bracket a leaves a the innermost open bracket. */
  lemma InsideAppend(build: Build, toks: seq<Token>, block: seq<Token>, super: nat, a: nat)
    requires Inside(build, toks, a) && a <= super < |toks|
    requires Closed(block) && Chained(build, block, |toks|, super)
    ensures Inside(build, toks + block, a)
  {
    LastOpenAppend(toks, block);
    forall k | 0 <= k < |toks + block| ensures GoodToken((toks + block)[k], k) {
      if k < |toks| { assert GoodToken(toks[k], k); } else { assert (toks + block)[k] == block[k - |toks|]; }
    }
    if build.ParentLinks? {
      forall i | a <= i < |toks + block| ensures Climb(toks + block, i) == a { ClimbBlock(toks, block, super, a, i); }
    }
  }

  /** A bracket just opened is the innermost one. */
  lemma InsideNew(build: Build, toks: seq<Token>, t: Token)
    requires Open(t) && GoodToken(t, |toks|) && forall i :: 0 <= i < |toks| ==> GoodToken(toks[i], i)
    ensures Inside(build, toks + [t], |toks|)
  {
  }

  // ---------------------------------------------------------------- the state after a value

  predicate Scalar(v: Value) { v.Prim? || v.Str? }

  /** toksuper after a value: a scalar leaves it; closing a container sets it to the parent, or to the
      innermost bracket still open. */
  function SuperAfter(build: Build, s: State, v: Value): int {
    if Scalar(v) || build.ParentLinks? then s.super else LastOpen(s.toks)
  }

  ghost function After(build: Build, s: State, v: Value): State
    requires -1 <= s.super < |s.toks|
  {
    var block := Tokens(build, v, s.pos, s.next, s.super);
    State(s.pos + |Text(v)|, s.next + |block|, SuperAfter(build, s, v), Bump(s.toks, s.super) + block,
          s.count + |block|)
  }

  function BumpBy(toks: seq<Token>, a: nat, n: nat): (r: seq<Token>)
    requires a < |toks|
    ensures |r| == |toks| && forall i :: 0 <= i < |r| ==> r[i] == toks[i].(size := r[i].size)
  {
    toks[a := toks[a].(size := toks[a].size + n)]
  }

  ghost predicate Fits(build: Build, room: Room, s: State, n: nat) {
    room.Slots? && Valid(room, s) && s.next + n <= room.count
  }

  lemma ValidAfter(build: Build, room: Room, s: State, v: Value)
    requires Fits(build, room, s, |Tokens(build, v, s.pos, s.next, s.super)|)
    ensures Valid(room, After(build, s, v))
  {
    TokensClosed(build, v, s.pos, s.next, s.super);
    var t := After(build, s, v).toks;
    forall i | 0 <= i < |t| ensures GoodToken(t[i], i) {
      if i < |s.toks| { assert GoodToken(s.toks[i], i); }
    }
  }

  // ---------------------------------------------------------------- where the parts of a text lie

  lemma SplitArray(js: string, p: nat, v: Value)
    requires v.Arr? && At(js, p, Text(v))
    ensures At(js, p, "[") && At(js, p + 1, v.pad) && At(js, p + 1 + |v.pad|, ItemsText(v.items))
    ensures At(js, p + |Text(v)| - 1, "]") && |Text(v)| == 2 + |v.pad| + |ItemsText(v.items)|
  {
    AtConcat(js, p, "[" + v.pad + ItemsText(v.items), "]");
    AtConcat(js, p, "[" + v.pad, ItemsText(v.items));
    AtConcat(js, p, "[", v.pad);
  }

  lemma SplitObject(js: string, p: nat, v: Value)
    requires v.Obj? && At(js, p, Text(v))
    ensures At(js, p, "{") && At(js, p + 1, v.pad) && At(js, p + 1 + |v.pad|, MembersText(v.members))
    ensures At(js, p + |Text(v)| - 1, "}") && |Text(v)| == 2 + |v.pad| + |MembersText(v.members)|
  {
    AtConcat(js, p, "{" + v.pad + MembersText(v.members), "}");
    AtConcat(js, p, "{" + v.pad, MembersText(v.members));
    AtConcat(js, p, "{", v.pad);
  }

  lemma SplitQuoted(js: string, p: nat, body: string)
    requires At(js, p, Quoted(body))
    ensures At(js, p, "\"") && At(js, p + 1, body) && At(js, p + 1 + |body|, "\"") && |Quoted(body)| == |body| + 2
  {
    AtConcat(js, p, "\"" + body, "\"");
    AtConcat(js, p, "\"", body);
  }

  lemma SplitKey(js: string, p: nat, m: Members)
    requires m.Member? && At(js, p, KeyText(m))
    ensures At(js, p, m.pre) && At(js, p + |m.pre|, Quoted(m.key)) && At(js, p + |m.pre| + |m.key| + 2, m.mid)
    ensures At(js, p + |m.pre| + |m.key| + 2 + |m.mid|, ":") && At(js, p + |m.pre| + |m.key| + 3 + |m.mid|, m.gap)
    ensures |KeyText(m)| == |m.pre| + |m.key| + 3 + |m.mid| + |m.gap|
  {
    var k := Quoted(m.key);
    AtConcat(js, p, m.pre + k + m.mid + ":", m.gap);
    AtConcat(js, p, m.pre + k + m.mid, ":");
    AtConcat(js, p, m.pre + k, m.mid);
    AtConcat(js, p, m.pre, k);
  }

  /** What follows a list element: nothing, or a comma and the remaining elements. */
  function Tail(last: bool, text: string): string { if last then "" else "," + text }

  lemma SplitTail(js: string, p: nat, v: string, post: string, last: bool, text: string)
    requires At(js, p, v + post + Tail(last, text)) && Blanks(post)
    requires last ==> Delimited(js, p + |v| + |post|)
    ensures At(js, p, v) && At(js, p + |v|, post) && Delimited(js, p + |v|)
    ensures !last ==> At(js, p + |v| + |post|, ",") && At(js, p + |v| + |post| + 1, text)
  {
    AtConcat(js, p, v + post, Tail(last, text));
    AtConcat(js, p, v, post);
    if !last { AtConcat(js, p + |v| + |post|, ",", text); }
    if post != "" {
      assert js[p + |v|] == post[0];
    } else if !last {
      assert js[p + |v|] == ","[0];
    }
  }

  /** Where the parts of one element, printed from position p, lie. */
  ghost predicate PartsAt(js: string, p: nat, head: string, v: string, post: string, last: bool, text: string) {
    var q := p + |head|;
    var r := q + |v| + |post|;
    && At(js, p, head) && At(js, q, v) && At(js, q + |v|, post) && Delimited(js, q + |v|)
    && (!last ==> At(js, r, ",") && At(js, r + 1, text))
  }

  lemma SplitElement(js: string, p: nat, head: string, v: string, post: string, last: bool, text: string)
    requires At(js, p, head + (v + post + Tail(last, text))) && Blanks(post)
    requires last ==> Delimited(js, p + |head| + |v| + |post|)
    ensures PartsAt(js, p, head, v, post, last, text)
  {
    AtConcat(js, p, head, v + post + Tail(last, text));
    SplitTail(js, p + |head|, v, post, last, text);
  }

  lemma SplitItem(js: string, p: nat, items: Items)
    requires items.Item? && LegalItems(items) && At(js, p, ItemsText(items)) && Delimited(js, p + |ItemsText(items)|)
    ensures PartsAt(js, p, items.pre, Text(items.v), items.post, items.rest.NoItems?, ItemsText(items.rest))
    ensures |ItemsText(items)| == |items.pre| + |Text(items.v)| + |items.post|
                                  + (if items.rest.NoItems? then 0 else 1 + |ItemsText(items.rest)|)
  {
    hide Text, At, Delimited;
    var tail := Tail(items.rest.NoItems?, ItemsText(items.rest));
    assert ItemsText(items) == items.pre + (Text(items.v) + items.post + tail);
    SplitElement(js, p, items.pre, Text(items.v), items.post, items.rest.NoItems?, ItemsText(items.rest));
  }

  lemma SplitMember(js: string, p: nat, ms: Members)
    requires ms.Member? && LegalMembers(ms) && At(js, p, MembersText(ms)) && Delimited(js, p + |MembersText(ms)|)
    ensures PartsAt(js, p, KeyText(ms), Text(ms.v), ms.post, ms.rest.NoMembers?, MembersText(ms.rest))
    ensures |MembersText(ms)| == |KeyText(ms)| + |Text(ms.v)| + |ms.post|
                                 + (if ms.rest.NoMembers? then 0 else 1 + |MembersText(ms.rest)|)
  {
    hide Text, At, Delimited, KeyText;
    var tail := Tail(ms.rest.NoMembers?, MembersText(ms.rest));
    assert MembersText(ms) == KeyText(ms) + (Text(ms.v) + ms.post + tail);
    SplitElement(js, p, KeyText(ms), Text(ms.v), ms.post, ms.rest.NoMembers?, MembersText(ms.rest));
  }

  // ---------------------------------------------------------------- running over text

  lemma StringStep(build: Build, js: string, room: Room, s: State, body: string)
    requires Fits(build, room, s, 1) && !AtEnd(js, s.pos) && js[s.pos] == '\"'
    requires StringEnd(js, s.pos + 1) == Quote(s.pos + 1 + |body|)
    ensures -1 <= s.super < |s.toks| && Step(build, js, room, s) == Go(After(build, s, Str(body)))
  {
    hide StringEnd, GoodToken;
  }

  lemma RunString(build: Build, js: string, room: Room, s: State, body: string)
    requires StringBody(body) && At(js, s.pos, Quoted(body)) && Fits(build, room, s, 1)
    ensures Valid(room, After(build, s, Str(body)))
    ensures Run(build, js, room, s) == Run(build, js, room, After(build, s, Str(body)))
  {
    hide Run, Step, StringBody, Valid;
    ValidAfter(build, room, s, Str(body));
    SplitQuoted(js, s.pos, body);
    assert js[s.pos] == "\""[0];
    StringScan(js, s.pos + 1, body);
    StringStep(build, js, room, s, body);
    RunStep(build, js, room, s, After(build, s, Str(body)));
  }

  lemma RunPrimitive(build: Build, js: string, room: Room, s: State, text: string)
    requires PrimitiveText(text) && At(js, s.pos, text) && Delimited(js, s.pos + |text|) && Fits(build, room, s, 1)
    ensures Valid(room, After(build, s, Prim(text)))
    ensures Run(build, js, room, s) == Run(build, js, room, After(build, s, Prim(text)))
  {
    hide Run;
    ValidAfter(build, room, s, Prim(text));
    assert js[s.pos] == text[0] && PrimitiveChar(text[0]);
    PrimitiveScan(js, s.pos, text);
    RunStep(build, js, room, s, After(build, s, Prim(text)));
  }

  /** The turn on an opening bracket, and the white space after it. */
  lemma OpeningStep(build: Build, js: string, room: Room, s: State, typ: TokenType)
    requires typ == Object || typ == Array
    requires Fits(build, room, s, 1) && !AtEnd(js, s.pos) && js[s.pos] == (if typ == Object then '{' else '[')
    ensures -1 <= s.super < |s.toks|
    ensures Step(build, js, room, s)
            == Go(State(s.pos + 1, s.next + 1, s.next,
                        Bump(s.toks, s.super) + [Token(typ, s.pos, -1, 0, Link(build, s.super))], s.count + 1))
  {
    hide GoodToken;
  }

  lemma RunOpening(build: Build, js: string, room: Room, s: State, typ: TokenType, pad: string) returns (s': State)
    requires typ == Object || typ == Array
    requires Fits(build, room, s, 1) && At(js, s.pos, if typ == Object then "{" else "[") && At(js, s.pos + 1, pad) && Blanks(pad)
    ensures s' == State(s.pos + 1 + |pad|, s.next + 1, s.next,
                        Bump(s.toks, s.super) + [Token(typ, s.pos, -1, 0, Link(build, s.super))], s.count + 1)
    ensures Valid(room, s') && Inside(build, s'.toks, s.next)
    ensures Run(build, js, room, s) == Run(build, js, room, s')
  {
    hide Run, Step, Inside, LastOpen, Climb, Blanks;
    assert js[s.pos] == (if typ == Object then "{" else "[")[0];
    OpeningStep(build, js, room, s, typ);
    var s1 := Step(build, js, room, s).s;
    RunStep(build, js, room, s, s1);
    RunBlanks(build, js, room, s1, pad);
    s' := s1.(pos := s1.pos + |pad|);
    forall i | 0 <= i < |s.toks| ensures GoodToken(Bump(s.toks, s.super)[i], i) { assert GoodToken(s.toks[i], i); }
    InsideNew(build, Bump(s.toks, s.super), Token(typ, s.pos, -1, 0, Link(build, s.super)));
  }

  lemma ClosingStep(build: Build, js: string, room: Room, s: State, a: nat, typ: TokenType)
    requires typ == Object || typ == Array
    requires room.Slots? && Valid(room, s) && !AtEnd(js, s.pos) && js[s.pos] == (if typ == Object then '}' else ']')
    requires Inside(build, s.toks, a) && s.toks[a].typ == typ
    ensures Step(build, js, room, s)
            == Go(s.(pos := s.pos + 1, toks := s.toks[a := s.toks[a].(end := s.pos + 1)],
                     super := if build.ParentLinks? then s.toks[a].parent else LastOpen(s.toks[..a])))
  {
    hide StringEnd, PrimitiveEnd;
  }

  /** The turn on the closing bracket of the innermost open token a. */
  lemma RunClosing(build: Build, js: string, room: Room, s: State, a: nat, typ: TokenType) returns (s': State)
    requires typ == Object || typ == Array
    requires room.Slots? && Valid(room, s) && At(js, s.pos, if typ == Object then "}" else "]")
    requires Inside(build, s.toks, a) && s.toks[a].typ == typ
    ensures s' == s.(pos := s.pos + 1, toks := s.toks[a := s.toks[a].(end := s.pos + 1)],
                     super := if build.ParentLinks? then s.toks[a].parent else LastOpen(s.toks[..a]))
    ensures Valid(room, s') && Run(build, js, room, s) == Run(build, js, room, s')
  {
    hide Run, Step, Inside, LastOpen, Climb;
    assert js[s.pos] == (if typ == Object then "}" else "]")[0];
    ClosingStep(build, js, room, s, a, typ);
    s' := Step(build, js, room, s).s;
    RunStep(build, js, room, s, s');
  }

  /** The turn on a comma inside the open bracket a: list elements go back to hanging from a. */
  lemma RunComma(build: Build, js: string, room: Room, s: State, a: nat)
    requires room.Slots? && Valid(room, s) && At(js, s.pos, ",") && Inside(build, s.toks, a)
    requires s.super == a || (s.super != -1 && !Container(s.toks[s.super]) && s.toks[s.super].parent == Link(build, a))
    ensures Valid(room, s.(pos := s.pos + 1, super := a))
    ensures Run(build, js, room, s) == Run(build, js, room, s.(pos := s.pos + 1, super := a))
  {
    hide Run;
    assert js[s.pos] == ","[0];
    assert GoodToken(s.toks[a], a);
    RunStep(build, js, room, s, s.(pos := s.pos + 1, super := a));
  }

  /** Hanging a closed tree below token `super` of the open bracket a. */
  lemma InsideAfter(build: Build, s: State, v: Value, a: nat)
    requires 0 <= s.super < |s.toks| == s.next && Inside(build, s.toks, a) && a <= s.super
    ensures Inside(build, After(build, s, v).toks, a)
  {
    hide Tokens;
    TokensClosed(build, v, s.pos, s.next, s.super);
    InsideSame(build, s.toks, Bump(s.toks, s.super), a);
    InsideAppend(build, Bump(s.toks, s.super), Tokens(build, v, s.pos, s.next, s.super), s.super, a);
  }

  /** Running over the text of a value from any state with room for it. */
  lemma {:induction false} RunValue(build: Build, js: string, room: Room, s: State, v: Value)
    requires Legal(v) && At(js, s.pos, Text(v))
    requires Fits(build, room, s, |Tokens(build, v, s.pos, s.next, s.super)|)
    requires v.Prim? ==> Delimited(js, s.pos + |Text(v)|)
    ensures Valid(room, After(build, s, v))
    ensures Run(build, js, room, s) == Run(build, js, room, After(build, s, v))
    decreases v, 1
  {
    hide Run, Step, After;
    match v
    case Prim(text) => RunPrimitive(build, js, room, s, text);
    case Str(body) => RunString(build, js, room, s, body);
    case Arr(pad, items) => RunArray(build, js, room, s, v);
    case Obj(pad, members) => RunObject(build, js, room, s, v);
  }

  lemma {:induction false} RunArray(build: Build, js: string, room: Room, s: State, v: Value)
    requires v.Arr? && Legal(v) && At(js, s.pos, Text(v))
    requires Fits(build, room, s, |Tokens(build, v, s.pos, s.next, s.super)|)
    ensures Valid(room, After(build, s, v))
    ensures Run(build, js, room, s) == Run(build, js, room, After(build, s, v))
    decreases v, 0
  {
    hide Run, Step, Inside, Valid, LastOpen, Bump, BumpBy, ItemsText, ItemTokens, LegalItems, Blanks, Climb;
    var Arr(pad, items) := v;
    var a := s.next;
    ValidAfter(build, room, s, v);
    SplitArray(js, s.pos, v);
    var s1 := RunOpening(build, js, room, s, Array, pad);
    assert js[s1.pos + |ItemsText(items)|] == "]"[0];
    var s2 := RunItems(build, js, room, s1, items, a);
    InsideFirst(build, s2.toks, a);
    var s3 := RunClosing(build, js, room, s2, a, Array);
    Shape(room, s);
    CloseBlock(s.toks, s.super, Token(Array, s.pos, -1, 0, Link(build, s.super)), ItemCount(items), s3.pos,
               ItemTokens(build, items, s1.pos, s1.next, a));
    LastOpenSame(s.toks, s2.toks[..a]);
  }

  lemma {:induction false} RunObject(build: Build, js: string, room: Room, s: State, v: Value)
    requires v.Obj? && Legal(v) && At(js, s.pos, Text(v))
    requires Fits(build, room, s, |Tokens(build, v, s.pos, s.next, s.super)|)
    ensures Valid(room, After(build, s, v))
    ensures Run(build, js, room, s) == Run(build, js, room, After(build, s, v))
    decreases v, 0
  {
    hide Run, Step, Inside, Valid, LastOpen, Bump, BumpBy, MembersText, MemberTokens, LegalMembers, Blanks, Climb;
    var Obj(pad, ms) := v;
    var a := s.next;
    ValidAfter(build, room, s, v);
    SplitObject(js, s.pos, v);
    var s1 := RunOpening(build, js, room, s, Object, pad);
    assert js[s1.pos + |MembersText(ms)|] == "}"[0];
    var s2 := RunMembers(build, js, room, s1, ms, a);
    InsideFirst(build, s2.toks, a);
    var s3 := RunClosing(build, js, room, s2, a, Object);
    Shape(room, s);
    CloseBlock(s.toks, s.super, Token(Object, s.pos, -1, 0, Link(build, s.super)), MemberCount(ms), s3.pos,
               MemberTokens(build, ms, s1.pos, s1.next, a));
    LastOpenSame(s.toks, s2.toks[..a]);
  }

  lemma InsideFirst(build: Build, toks: seq<Token>, a: nat)
    requires Inside(build, toks, a)
    ensures a < |toks| && Open(toks[a]) && LastOpen(toks) == a
  {
  }

  lemma Shape(room: Room, s: State)
    requires room.Slots? && Valid(room, s)
    ensures -1 <= s.super < |s.toks| == s.next
  {
  }

  /** Counting n elements on a new bracket token, and then closing it. */
  lemma CloseBlock(toks: seq<Token>, super: int, t: Token, n: nat, end: int, block: seq<Token>)
    requires -1 <= super < |toks| && t.size == 0
    ensures var a := |toks|;
            var open := BumpBy(Bump(toks, super) + [t], a, n) + block;
            && open[..a] == Bump(toks, super)
            && open[a := open[a].(end := end)] == Bump(toks, super) + ([t.(size := n, end := end)] + block)
  {
  }

  /** One array element with the white space around it. */
  lemma {:induction false} RunItem(build: Build, js: string, room: Room, s: State, items: Items, a: nat) returns (s': State)
    requires items.Item? && LegalItems(items)
    requires PartsAt(js, s.pos, items.pre, Text(items.v), items.post, items.rest.NoItems?, ItemsText(items.rest))
    requires Fits(build, room, s, |Tokens(build, items.v, s.pos + |items.pre|, s.next, a)|)
    requires s.super == a && Inside(build, s.toks, a)
    ensures var first := Tokens(build, items.v, s.pos + |items.pre|, s.next, a);
            s' == State(s.pos + |items.pre| + |Text(items.v)| + |items.post|, s.next + |first|, a,
                        Bump(s.toks, a) + first, s.count + |first|)
    ensures Valid(room, s') && Inside(build, s'.toks, a)
    ensures Run(build, js, room, s) == Run(build, js, room, s')
    decreases items, 0
  {
    hide Run, Step, At, Tokens, Text, Inside, LastOpen;
    var Item(pre, v, post, rest) := items;
    RunBlanks(build, js, room, s, pre);
    var s1 := s.(pos := s.pos + |pre|);
    RunValue(build, js, room, s1, v);
    var s2 := After(build, s1, v);
    InsideFirst(build, s.toks, a);
    InsideAfter(build, s1, v, a);
    RunBlanks(build, js, room, s2, post);
    s' := s2.(pos := s2.pos + |post|);
  }

  lemma {:induction false} RunItems(build: Build, js: string, room: Room, s: State, items: Items, a: nat) returns (s': State)
    requires LegalItems(items) && At(js, s.pos, ItemsText(items)) && Delimited(js, s.pos + |ItemsText(items)|)
    requires Fits(build, room, s, |ItemTokens(build, items, s.pos, s.next, a)|)
    requires s.super == a && Inside(build, s.toks, a) && s.toks[a].typ == Array
    ensures var block := ItemTokens(build, items, s.pos, s.next, a);
            s' == State(s.pos + |ItemsText(items)|, s.next + |block|, a,
                        BumpBy(s.toks, a, ItemCount(items)) + block, s.count + |block|)
    ensures Valid(room, s') && Inside(build, s'.toks, a)
    ensures Run(build, js, room, s) == Run(build, js, room, s')
    decreases items, 1
  {
    hide Run, Step, At, Tokens, Text, Inside, LastOpen, Valid;
    InsideFirst(build, s.toks, a);
    if items.NoItems? {
      s' := s;
      return;
    }
    var Item(pre, v, post, rest) := items;
    var first := Tokens(build, v, s.pos + |pre|, s.next, a);
    SplitItem(js, s.pos, items);
    var s1 := RunItem(build, js, room, s, items, a);
    if rest.NoItems? {
      s' := s1;
    } else {
      RunComma(build, js, room, s1, a);
      s' := RunItems(build, js, room, s1.(pos := s1.pos + 1), rest, a);
    }
    BumpMore(s.toks, a, first, ItemCount(rest), ItemTokens(build, rest, s1.pos + 1, s1.next, a));
  }

  lemma BumpMore(toks: seq<Token>, a: nat, first: seq<Token>, n: nat, rest: seq<Token>)
    requires a < |toks|
    ensures BumpBy(Bump(toks, a) + first, a, n) + rest == BumpBy(toks, a, n + 1) + (first + rest)
    ensures Bump(toks, a) == BumpBy(toks, a, 1)
  {
  }

  lemma StepColon(build: Build, js: string, room: Room, s: State)
    requires Valid(room, s) && At(js, s.pos, ":")
    ensures !AtEnd(js, s.pos) && Step(build, js, room, s) == Go(s.(pos := s.pos + 1, super := s.next - 1))
  {
    assert js[s.pos] == ":"[0];
  }

  /** The key of a member, its colon and the white space around them. */
  lemma RunKey(build: Build, js: string, room: Room, s: State, ms: Members, a: nat) returns (s': State)
    requires ms.Member? && LegalMembers(ms) && At(js, s.pos, KeyText(ms))
    requires Fits(build, room, s, 1)
    requires s.super == a && Inside(build, s.toks, a)
    ensures var keyAt := s.pos + |ms.pre| + 1;
            s' == State(s.pos + |KeyText(ms)|, s.next + 1, s.next,
                        BumpBy(s.toks, a, 1) + [Token(String, keyAt, keyAt + |ms.key|, 0, Link(build, a))], s.count + 1)
    ensures Valid(room, s') && Inside(build, s'.toks, a)
    ensures Run(build, js, room, s) == Run(build, js, room, s')
  {
    hide Run, Step, At, Inside, LastOpen, Climb, StringBody, Blanks;
    InsideFirst(build, s.toks, a);
    var Member(pre, key, mid, gap, _, _, _) := ms;
    SplitKey(js, s.pos, ms);
    RunBlanks(build, js, room, s, pre);
    var s1 := s.(pos := s.pos + |pre|);
    RunString(build, js, room, s1, key);
    var s2 := After(build, s1, Str(key));
    InsideAfter(build, s1, Str(key), a);
    RunBlanks(build, js, room, s2, mid);
    var s3 := s2.(pos := s2.pos + |mid|);
    var s4 := s3.(pos := s3.pos + 1, super := s3.next - 1);
    StepColon(build, js, room, s3);
    RunStep(build, js, room, s3, s4);
    RunBlanks(build, js, room, s4, gap);
    s' := s4.(pos := s4.pos + |gap|);
  }

  /** One object member: key, colon, value and the white space around them. */
  lemma {:induction false} RunMember(build: Build, js: string, room: Room, s: State, ms: Members, a: nat) returns (s': State)
    requires ms.Member? && LegalMembers(ms)
    requires PartsAt(js, s.pos, KeyText(ms), Text(ms.v), ms.post, ms.rest.NoMembers?, MembersText(ms.rest))
    requires Fits(build, room, s, 1 + |Tokens(build, ms.v, s.pos + |KeyText(ms)|, s.next + 1, s.next)|)
    requires s.super == a && Inside(build, s.toks, a)
    ensures var keyAt := s.pos + |ms.pre| + 1;
            var key := Token(String, keyAt, keyAt + |ms.key|, 1, Link(build, a));
            var first := Tokens(build, ms.v, s.pos + |KeyText(ms)|, s.next + 1, s.next);
            s' == State(s.pos + |KeyText(ms)| + |Text(ms.v)| + |ms.post|, s.next + 1 + |first|, s'.super,
                        Bump(s.toks, a) + ([key] + first), s.count + 1 + |first|)
    ensures Valid(room, s') && Inside(build, s'.toks, a)
    ensures s'.super == a || s'.super == s.next
    ensures Run(build, js, room, s) == Run(build, js, room, s')
    decreases ms, 0
  {
    hide Run, Step, At, Tokens, Text, KeyText, Inside, LastOpen;
    var s1 := RunKey(build, js, room, s, ms, a);
    RunValue(build, js, room, s1, ms.v);
    var s2 := After(build, s1, ms.v);
    InsideFirst(build, s1.toks, a);
    InsideAfter(build, s1, ms.v, a);
    RunBlanks(build, js, room, s2, ms.post);
    s' := s2.(pos := s2.pos + |ms.post|);
    var keyAt := s.pos + |ms.pre| + 1;
    var key := Token(String, keyAt, keyAt + |ms.key|, 1, Link(build, a));
    assert Bump(s1.toks, s.next) == Bump(s.toks, a) + [key];
  }

  lemma MembersUnfold(build: Build, ms: Members, at: nat, base: nat, super: int)
    ensures ms.NoMembers? ==> MembersText(ms) == "" && MemberTokens(build, ms, at, base, super) == []
    ensures ms.Member? ==>
              var keyAt, n := at + |ms.pre| + 1, |KeyText(ms)| + |Text(ms.v)| + |ms.post|;
              var first := Tokens(build, ms.v, at + |KeyText(ms)|, base + 1, base);
              && |MembersText(ms)| == n + (if ms.rest.NoMembers? then 0 else 1 + |MembersText(ms.rest)|)
              && MemberTokens(build, ms, at, base, super) ==
                   [Token(String, keyAt, keyAt + |ms.key|, 1, Link(build, super))] + first
                   + MemberTokens(build, ms.rest, at + n + 1, base + 1 + |first|, super)
  {
    hide Text, Tokens, KeyText;
  }

  lemma NoBump(toks: seq<Token>, a: nat)
    requires a < |toks|
    ensures BumpBy(toks, a, 0) + [] == toks
  {
  }

  lemma KeyInPlace(toks: seq<Token>, a: nat, key: Token, first: seq<Token>)
    requires a < |toks| && key.typ == String
    ensures var all := Bump(toks, a) + ([key] + first);
            |all| > |toks| && all[|toks|] == key && !Container(all[|toks|])
  {
  }

  lemma {:induction false} RunMembers(build: Build, js: string, room: Room, s: State, ms: Members, a: nat) returns (s': State)
    requires LegalMembers(ms) && At(js, s.pos, MembersText(ms)) && Delimited(js, s.pos + |MembersText(ms)|)
    requires Fits(build, room, s, |MemberTokens(build, ms, s.pos, s.next, a)|)
    requires s.super == a && Inside(build, s.toks, a) && s.toks[a].typ == Object
    ensures var block := MemberTokens(build, ms, s.pos, s.next, a);
            s' == State(s.pos + |MembersText(ms)|, s.next + |block|, s'.super,
                        BumpBy(s.toks, a, MemberCount(ms)) + block, s.count + |block|)
    ensures Valid(room, s') && Inside(build, s'.toks, a)
    ensures Run(build, js, room, s) == Run(build, js, room, s')
    decreases ms, 1
  {
    hide Run, Step, At, Tokens, Text, KeyText, Inside, LastOpen, Valid, Climb, StringBody, Blanks, Legal, Bump, BumpBy, Container,
         MembersText, MemberTokens, GoodToken;
    MembersUnfold(build, ms, s.pos, s.next, a);
    InsideFirst(build, s.toks, a);
    if ms.NoMembers? {
      NoBump(s.toks, a);
      s' := s;
      return;
    }
    var rest := ms.rest;
    var first := Tokens(build, ms.v, s.pos + |KeyText(ms)|, s.next + 1, s.next);
    var keyAt := s.pos + |ms.pre| + 1;
    var key := Token(String, keyAt, keyAt + |ms.key|, 1, Link(build, a));
    SplitMember(js, s.pos, ms);
    var s1 := RunMember(build, js, room, s, ms, a);
    Shape(room, s);
    KeyInPlace(s.toks, a, key, first);
    if rest.NoMembers? {
      s' := s1;
    } else {
      RunComma(build, js, room, s1, a);
      s' := RunMembers(build, js, room, s1.(pos := s1.pos + 1, super := a), rest, a);
    }
    MembersUnfold(build, rest, s1.pos + 1, s1.next, a);
    BumpMore(s.toks, a, [key] + first, MemberCount(rest), MemberTokens(build, rest, s1.pos + 1, s1.next, a));
  }

  // ---------------------------------------------------------------- whole documents

  /** A JSON text: a value between white space. */
  ghost predicate Document(js: string, before: string, v: Value, after: string) {
    js == before + Text(v) + after && Blanks(before) && Legal(v) && Blanks(after)
  }

  /** The same text at the start of a longer one, ended by a NUL or the end of the buffer. */
  ghost predicate DocumentAt(js: string, before: string, v: Value, after: string) {
    var n := |before + Text(v) + after|;
    At(js, 0, before + Text(v) + after) && TextEnds(js, n) && Blanks(before) && Legal(v) && Blanks(after)
  }

  /** Parsing ends there. */
  lemma ParseTerminated(build: Build, js: string, before: string, v: Value, after: string, slots: nat)
    requires DocumentAt(js, before, v, after)
    requires |Tokens(build, v, |before|, 0, -1)| <= slots
    ensures var toks := Tokens(build, v, |before|, 0, -1);
            Parse(build, js, Slots(slots), Start)
            == Outcome(|toks|, State(|before + Text(v) + after|, |toks|, -1, toks, |toks|))
  {
    hide Run, Step, Tokens, Text, At, After, AtEnd, Valid;
    var room := Slots(slots);
    var toks := Tokens(build, v, |before|, 0, -1);
    var s1 := Start.(pos := |before|);
    var s2 := After(build, s1, v);
    assert Valid(room, Start) by { StartValid(room); }
    ValidElsewhere(room, Start, |before|);
    AtConcat(js, 0, before + Text(v), after);
    AtConcat(js, 0, before, Text(v));
    RunBlanks(build, js, room, Start, before);
    BlanksDelimit(js, s1.pos + |Text(v)|, after);
    RunValue(build, js, room, s1, v);
    AfterStart(build, s1, v);
    RunBlanks(build, js, room, s2, after);
    TokensClosed(build, v, |before|, 0, -1);
    NoneOpen(toks);
    ValidElsewhere(room, s2, s2.pos + |after|);
    RunEnd(build, js, room, s2.(pos := s2.pos + |after|));
  }

  lemma StartValid(room: Room)
    requires room.Slots?
    ensures Valid(room, Start)
  {
  }

  lemma ValidElsewhere(room: Room, s: State, pos: nat)
    requires Valid(room, s)
    ensures Valid(room, s.(pos := pos))
  {
  }

  lemma BlanksDelimit(js: string, p: nat, after: string)
    requires At(js, p, after) && Blanks(after) && AtEnd(js, p + |after|)
    ensures Delimited(js, p)
  {
    if after != "" { assert js[p] == after[0]; }
  }

  lemma AfterStart(build: Build, s: State, v: Value)
    requires s == Start.(pos := s.pos)
    ensures var toks := Tokens(build, v, s.pos, 0, -1);
            After(build, s, v) == State(s.pos + |Text(v)|, |toks|, -1, toks, |toks|)
  {
    hide Tokens, Text;
  }

  lemma NoneOpen(toks: seq<Token>)
    requires Closed(toks)
    ensures LastOpen(toks) == -1
  {
    LastOpenAppend([], toks);
    assert [] + toks == toks;
  }

  /** With enough slots, parsing a document from a fresh parser returns its number of nodes and leaves
      exactly its tokens, whichever way brackets are matched. */
  lemma ParseDocument(build: Build, js: string, before: string, v: Value, after: string, slots: nat)
    requires Document(js, before, v, after)
    requires |Tokens(build, v, |before|, 0, -1)| <= slots
    ensures var toks := Tokens(build, v, |before|, 0, -1);
            Parse(build, js, Slots(slots), Start) == Outcome(|toks|, State(|js|, |toks|, -1, toks, |toks|))
  {
    hide Parse, Tokens, Text, Legal;
    ParseTerminated(build, js, before, v, after, slots);
  }

  lemma RunEnd(build: Build, js: string, room: Room, s: State)
    requires room.Slots? && Valid(room, s) && AtEnd(js, s.pos) && LastOpen(s.toks) == -1
    ensures Run(build, js, room, s) == Outcome(s.count, s)
  {
  }

  /** Types, spans and sizes, without the parent field. */
  function Spans(toks: seq<Token>): (r: seq<Token>)
    ensures |r| == |toks| && forall i :: 0 <= i < |r| ==> r[i] == toks[i].(parent := -1)
  {
    if toks == [] then [] else [toks[0].(parent := -1)] + Spans(toks[1..])
  }

  lemma {:induction false} SpansConcat(xs: seq<Token>, ys: seq<Token>)
    ensures Spans(xs + ys) == Spans(xs) + Spans(ys)
  {
  }

  lemma {:induction false} TokensAgree(v: Value, at: nat, base: nat, super: int, super': int)
    ensures Spans(Tokens(ParentLinks, v, at, base, super)) == Tokens(BackwardScan, v, at, base, super')
    decreases v
  {
    hide Text, ItemTokens, MemberTokens, Spans;
    match v
    case Prim(_) =>
    case Str(_) =>
    case Arr(pad, items) =>
      ItemTokensAgree(items, at + 1 + |pad|, base + 1, base);
    case Obj(pad, ms) =>
      MemberTokensAgree(ms, at + 1 + |pad|, base + 1, base);
  }

  lemma SpansOne(t: Token)
    ensures Spans([t]) == [t.(parent := -1)]
  {
    assert [t][1..] == [];
  }

  lemma {:induction false} ItemTokensAgree(items: Items, at: nat, base: nat, super: int)
    ensures Spans(ItemTokens(ParentLinks, items, at, base, super)) == ItemTokens(BackwardScan, items, at, base, super)
    decreases items
  {
    hide Text, Tokens, Spans;
    if items.Item? {
      var Item(pre, v, post, rest) := items;
      TokensAgree(v, at + |pre|, base, super, super);
      var first := Tokens(ParentLinks, v, at + |pre|, base, super);
      ItemTokensAgree(rest, at + |pre| + |Text(v)| + |post| + 1, base + |first|, super);
      SpansConcat(first, ItemTokens(ParentLinks, rest, at + |pre| + |Text(v)| + |post| + 1, base + |first|, super));
    }
  }

  lemma {:induction false} MemberTokensAgree(ms: Members, at: nat, base: nat, super: int)
    ensures Spans(MemberTokens(ParentLinks, ms, at, base, super)) == MemberTokens(BackwardScan, ms, at, base, super)
    decreases ms
  {
    hide Text, KeyText, MembersText, Tokens, MemberTokens, Spans;
    MembersUnfold(ParentLinks, ms, at, base, super);
    MembersUnfold(BackwardScan, ms, at, base, super);
    if ms.NoMembers? {
      assert Spans([]) == [];
    } else {
      var keyAt, next := at + |ms.pre| + 1, at + |KeyText(ms)| + |Text(ms.v)| + |ms.post| + 1;
      var key := Token(String, keyAt, keyAt + |ms.key|, 1, super);
      var first := Tokens(ParentLinks, ms.v, at + |KeyText(ms)|, base + 1, base);
      var later := MemberTokens(ParentLinks, ms.rest, next, base + 1 + |first|, super);
      TokensAgree(ms.v, at + |KeyText(ms)|, base + 1, base, base);
      MemberTokensAgree(ms.rest, next, base + 1 + |first|, super);
      SpansOne(key);
      SpansConcat([key], first);
      SpansConcat([key] + first, later);
    }
  }

  /** On every document the two builds return the same code and the same types, spans and sizes. */
  lemma BuildsAgree(js: string, before: string, v: Value, after: string, slots: nat)
    requires Document(js, before, v, after)
    requires |Tokens(BackwardScan, v, |before|, 0, -1)| <= slots
    ensures var scan := Parse(BackwardScan, js, Slots(slots), Start);
            var links := Parse(ParentLinks, js, Slots(slots), Start);
            scan.code == links.code && scan.s.toks == Spans(links.s.toks)
  {
    TokensAgree(v, |before|, 0, -1, -1);
    assert |Tokens(ParentLinks, v, |before|, 0, -1)| == |Tokens(BackwardScan, v, |before|, 0, -1)|;
    ParseDocument(BackwardScan, js, before, v, after, slots);
    ParseDocument(ParentLinks, js, before, v, after, slots);
  }

  /** Off the well-formed texts they differ: after `{}:` the links build lets a stray '}' pass. */
  lemma BuildsDisagreeElsewhere()
    ensures Parse(BackwardScan, "{}:}", Slots(1), Start).code == INVAL
    ensures Parse(ParentLinks, "{}:}", Slots(1), Start).code == 1
  {
    DisagreeUpTo(BackwardScan);
    DisagreeUpTo(ParentLinks);
    var s := State(3, 1, 0, [Token(Object, 0, 2, 0, -1)], 1);
    assert Step(ParentLinks, "{}:}", Slots(1), s) == Go(s.(pos := 4));
    RunEnd(ParentLinks, "{}:}", Slots(1), s.(pos := 4));
  }

  /** Both builds see `{}:` alike. */
  lemma DisagreeUpTo(build: Build)
    ensures Run(build, "{}:}", Slots(1), Start) == Run(build, "{}:}", Slots(1), State(3, 1, 0, [Token(Object, 0, 2, 0, -1)], 1))
  {
    hide Run, Step;
    var js := "{}:}";
    var room := Slots(1);
    var t := Token(Object, 0, 2, 0, -1);
    OpenAlike(build);
    RunStep(build, js, room, Start, State(1, 1, 0, [Token(Object, 0, -1, 0, -1)], 1));
    CloseAlike(build);
    RunStep(build, js, room, State(1, 1, 0, [Token(Object, 0, -1, 0, -1)], 1), State(2, 1, -1, [t], 1));
    StepColon(build, js, room, State(2, 1, -1, [t], 1));
    RunStep(build, js, room, State(2, 1, -1, [t], 1), State(3, 1, 0, [t], 1));
  }

  lemma OpenAlike(build: Build)
    ensures Step(build, "{}:}", Slots(1), Start) == Go(State(1, 1, 0, [Token(Object, 0, -1, 0, -1)], 1))
  {
  }

  lemma CloseAlike(build: Build)
    ensures var s := State(1, 1, 0, [Token(Object, 0, -1, 0, -1)], 1);
            Valid(Slots(1), s) && Step(build, "{}:}", Slots(1), s) == Go(State(2, 1, -1, [Token(Object, 0, 2, 0, -1)], 1))
  {
    var toks := [Token(Object, 0, -1, 0, -1)];
    assert toks[..0] == [] && toks[0 := toks[0].(end := 2)] == [Token(Object, 0, 2, 0, -1)];
  }
}
