/** The two builds on every text.  They stay in step, with the same code and the same types and spans, until a closing
    bracket comes while none is open and the parent-links build lets it pass; exactly then they part. */
module JsmnBuilds {
  import opened Basics
  import opened Jsmn

  // ---------------------------------------------------------------- innermost open brackets

  /** Which tokens are open decides where the last open one is. */
  lemma {:induction false} LastOpenAlike(xs: seq<Token>, ys: seq<Token>)
    requires |xs| == |ys| && forall i :: 0 <= i < |xs| ==> Open(xs[i]) == Open(ys[i])
    ensures LastOpen(xs) == LastOpen(ys)
    decreases |xs|
  {
    if xs != [] { LastOpenAlike(xs[..|xs| - 1], ys[..|ys| - 1]); }
  }

  /** The innermost open bracket among the first n tokens. */
  function Around(toks: seq<Token>, n: nat): (r: int)
    requires n <= |toks|
    ensures -1 <= r < n
    ensures r >= 0 ==> Open(toks[r])
    ensures forall j :: r < j < n ==> !Open(toks[j])
  {
    assert forall j :: 0 <= j < n ==> toks[..n][j] == toks[j];
    LastOpen(toks[..n])
  }

  lemma AroundAll(toks: seq<Token>)
    ensures Around(toks, |toks|) == LastOpen(toks)
  {
    assert toks[..|toks|] == toks;
  }

  lemma AroundAlike(xs: seq<Token>, ys: seq<Token>, n: nat)
    requires n <= |xs| && n <= |ys| && forall i :: 0 <= i < n ==> Open(xs[i]) == Open(ys[i])
    ensures Around(xs, n) == Around(ys, n)
  {
    LastOpenAlike(xs[..n], ys[..n]);
  }

  // ---------------------------------------------------------------- the two runs, side by side

  predicate SameSpan(x: Token, y: Token) { x.typ == y.typ && x.start == y.start && x.end == y.end }

  /** Equal but for sizes, parents and toksuper. */
  ghost predicate InStep(b: State, l: State) {
    && b.pos == l.pos && b.next == l.next && b.count == l.count
    && |b.toks| == |l.toks| && forall i :: 0 <= i < |b.toks| ==> SameSpan(b.toks[i], l.toks[i])
  }

  /** In the links build no token hangs above the innermost bracket open before it, nor will the next one. */
  ghost predicate Hangs(l: State) {
    && |l.toks| == l.next
    && LastOpen(l.toks) <= l.super
    && forall i :: 0 <= i < |l.toks| ==> Around(l.toks, i) <= l.toks[i].parent
  }

  /** Climbing from token i finds the innermost bracket open at i, if there is one. */
  lemma {:induction false} ClimbFinds(toks: seq<Token>, i: nat)
    requires i < |toks| && (forall k :: 0 <= k < |toks| ==> GoodToken(toks[k], k))
    requires forall k :: 0 <= k < |toks| ==> Around(toks, k) <= toks[k].parent
    ensures var r := Climb(toks, i);
            if Around(toks, i + 1) == -1 then !Open(toks[r]) else r == Around(toks, i + 1)
    decreases i
  {
    assert GoodToken(toks[i], i);
    AroundStep(toks, i);
    if !Open(toks[i]) && toks[i].parent != -1 {
      var p := toks[i].parent;
      ClimbFinds(toks, p);
      AroundBetween(toks, p, i);
    }
  }

  lemma AroundStep(toks: seq<Token>, i: nat)
    requires i < |toks|
    ensures Around(toks, i + 1) == if Open(toks[i]) then i else Around(toks, i)
  {
    assert toks[..i + 1][..i] == toks[..i];
  }

  lemma {:induction false} AroundBetween(toks: seq<Token>, p: nat, i: nat)
    requires p < i < |toks| && Around(toks, i) <= p
    ensures Around(toks, p + 1) == Around(toks, i)
    decreases i - p
  {
    if p + 1 < i {
      AroundStep(toks, p + 1);
      assert Around(toks, i) < p + 1;
      AroundBetween(toks, p + 1, i);
    }
  }

  /** The links build is about to let a closing bracket pass that closes nothing. */
  predicate Stray(js: string, l: State)
    requires |l.toks| == l.next && (forall k :: 0 <= k < |l.toks| ==> GoodToken(l.toks[k], k))
  {
    && !AtEnd(js, l.pos)
    && (js[l.pos] == '}' || js[l.pos] == ']')
    && LastOpen(l.toks) == -1 && l.next >= 1 && l.super != -1
    && l.toks[Climb(l.toks, l.next - 1)].typ == (if js[l.pos] == '}' then Object else Array)
  }

  // ---------------------------------------------------------------- one turn

  /** A new token: nothing changes below it, and it is the innermost open one if it is open. */
  lemma AddAround(toks: seq<Token>, super: int, t: Token)
    requires -1 <= super < |toks|
    ensures var more := Bump(toks, super) + [t];
            && LastOpen(more) == (if Open(t) then |toks| else LastOpen(toks))
            && Around(more, |toks|) == LastOpen(toks)
            && forall i :: 0 <= i < |toks| ==> Around(more, i) == Around(toks, i)
  {
    hide LastOpen, Around;
    var more := Bump(toks, super) + [t];
    forall i | 0 <= i < |toks|
      ensures Around(more, i) == Around(toks, i)
    {
      AroundAlike(more, toks, i);
    }
    AroundAlike(more, toks, |toks|);
    AroundAll(toks);
    AroundAll(more);
    AroundStep(more, |toks|);
  }

  lemma AddSpans(b: State, l: State, typ: TokenType, start: int, end: int)
    requires InStep(b, l) && |b.toks| == b.next
    requires -1 <= b.super < |b.toks| && -1 <= l.super < |l.toks|
    ensures InStep(Add(BackwardScan, b, typ, start, end), Add(ParentLinks, l, typ, start, end))
  {
  }

  lemma AddInStep(b: State, l: State, typ: TokenType, start: int, end: int)
    requires InStep(b, l) && Hangs(l) && |b.toks| == b.next
    requires -1 <= b.super < |b.toks| && -1 <= l.super < |l.toks|
    requires start != -1
    ensures var b', l' := Add(BackwardScan, b, typ, start, end), Add(ParentLinks, l, typ, start, end);
            && InStep(b', l') && |l'.toks| == l'.next
            && LastOpen(l'.toks) == (if end == -1 then l.next else LastOpen(l.toks))
            && forall i :: 0 <= i < |l'.toks| ==> Around(l'.toks, i) <= l'.toks[i].parent
  {
    hide LastOpen, Around, InStep;
    AddSpans(b, l, typ, start, end);
    InStepMeans(b, l);
    AddAround(l.toks, l.super, Token(typ, start, end, 0, l.super));
  }

  lemma OpenInStep(slots: nat, b: State, l: State, typ: TokenType)
    requires Valid(Slots(slots), b) && Valid(Slots(slots), l) && InStep(b, l) && Hangs(l)
    requires typ == Object || typ == Array
    ensures var m, k := StepOpen(BackwardScan, Slots(slots), b, typ), StepOpen(ParentLinks, Slots(slots), l, typ);
            if m.Go? then k.Go? && InStep(m.s, k.s) && Hangs(k.s) else k == m
  {
    hide LastOpen, Around, Bump;
    if l.next < slots { AddInStep(b, l, typ, l.pos, -1); }
  }

  lemma LeafInStep(slots: nat, b: State, l: State, typ: TokenType, start: nat, end: nat, after: nat)
    requires Valid(Slots(slots), b) && Valid(Slots(slots), l) && InStep(b, l) && Hangs(l)
    ensures var m := StepLeaf(BackwardScan, Slots(slots), b, typ, start, end, after);
            var k := StepLeaf(ParentLinks, Slots(slots), l, typ, start, end, after);
            if m.Go? then k.Go? && InStep(m.s, k.s) && Hangs(k.s) else k == m
  {
    hide LastOpen, Around, Bump;
    if l.next < slots { AddInStep(b, l, typ, start, end); }
  }

  function Closed(toks: seq<Token>, i: nat, end: int): (r: seq<Token>)
    requires i < |toks|
    ensures |r| == |toks|
  {
    toks[i := toks[i].(end := end)]
  }

  lemma CloseAt(toks: seq<Token>, i: nat, end: int)
    requires i == LastOpen(toks) && end != -1
    requires forall k :: 0 <= k < |toks| ==> Around(toks, k) <= toks[k].parent
    ensures var r := Closed(toks, i, end);
            && LastOpen(r) == Around(toks, i)
            && forall k :: 0 <= k < |r| ==> Around(r, k) <= r[k].parent
  {
    hide LastOpen, Around;
    var r := Closed(toks, i, end);
    forall k | 0 <= k < |r|
      ensures Around(r, k) <= r[k].parent
    {
      if k <= i { AroundAlike(r, toks, k); } else { ClosedAround(toks, i, end, k); }
    }
    AroundAll(r);
    ClosedAround(toks, i, end, |r|);
  }

  /** Past the bracket just closed, the innermost open one is the one around it. */
  lemma {:induction false} ClosedAround(toks: seq<Token>, i: nat, end: int, n: nat)
    requires i == LastOpen(toks) && end != -1 && i < n <= |toks|
    ensures var r := Closed(toks, i, end);
            Around(r, n) == Around(toks, i) <= Around(toks, n)
    decreases n
  {
    hide LastOpen, Around;
    var r := Closed(toks, i, end);
    AroundStep(r, n - 1);
    if n == i + 1 { AroundAlike(r, toks, i); } else { ClosedAround(toks, i, end, n - 1); }
  }

  lemma CloseInStep(js: string, slots: nat, b: State, l: State, typ: TokenType)
    requires Valid(Slots(slots), b) && Valid(Slots(slots), l) && InStep(b, l) && Hangs(l)
    requires !AtEnd(js, l.pos) && js[l.pos] == (if typ == Object then '}' else ']') && (typ == Object || typ == Array)
    ensures var m, k := StepClose(BackwardScan, Slots(slots), b, typ), StepClose(ParentLinks, Slots(slots), l, typ);
            if Stray(js, l) then m == Halt(INVAL) && k.Go?
            else if m.Go? then k.Go? && InStep(m.s, k.s) && Hangs(k.s) else k == m
  {
    hide LastOpen, Around, Climb, InStep, StepClose;
    InStepMeans(b, l);
    if LastOpen(l.toks) != -1 {
      CloseOpen(slots, b, l, typ);
    } else if l.next >= 1 {
      CloseNone(slots, b, l, typ);
    } else {
      CloseNothing(slots, b, l, typ);
    }
  }

  /** What the links build does with a closing bracket: it closes the innermost open one if that has its type.  With none
      open it fails unless the root of the last token has the bracket's type and something is to hang from. */
  lemma LinksClose(slots: nat, l: State, typ: TokenType)
    requires Valid(Slots(slots), l) && Hangs(l) && l.next >= 1
    ensures var i, root := LastOpen(l.toks), l.toks[Climb(l.toks, l.next - 1)];
            StepClose(ParentLinks, Slots(slots), l, typ) ==
              if i == -1 then
                if root.typ != typ || l.super == -1 then Halt(INVAL) else Go(l.(pos := l.pos + 1))
              else if l.toks[i].typ != typ then Halt(INVAL)
              else Go(l.(toks := Closed(l.toks, i, l.pos + 1), super := l.toks[i].parent, pos := l.pos + 1))
  {
    hide LastOpen, Around, Climb;
    ClimbFinds(l.toks, l.next - 1);
    AroundAll(l.toks);
  }

  lemma CloseOpen(slots: nat, b: State, l: State, typ: TokenType)
    requires Valid(Slots(slots), b) && Valid(Slots(slots), l) && InStep(b, l) && Hangs(l)
    requires LastOpen(b.toks) == LastOpen(l.toks) != -1
    ensures var m, k := StepClose(BackwardScan, Slots(slots), b, typ), StepClose(ParentLinks, Slots(slots), l, typ);
            if m.Go? then k.Go? && InStep(m.s, k.s) && Hangs(k.s) else k == m
  {
    hide LastOpen, Around, Climb, GoodToken, Closed, InStep;
    var i := LastOpen(l.toks);
    LinksClose(slots, l, typ);
    InStepMeans(b, l);
    if l.toks[i].typ == typ && b.toks[i].typ == typ {
      CloseAt(l.toks, i, l.pos + 1);
      ClosedSpans(b, l, i, LastOpen(b.toks[..i]), l.toks[i].parent);
    }
    assert SameSpan(b.toks[i], l.toks[i]) by { SpanAt(b, l, i); }
  }

  lemma SpanAt(b: State, l: State, i: nat)
    requires InStep(b, l) && i < |b.toks|
    ensures i < |l.toks| && SameSpan(b.toks[i], l.toks[i])
  {
  }

  lemma ClosedSpans(b: State, l: State, i: nat, x: int, y: int)
    requires InStep(b, l) && i < |b.toks|
    ensures i < |l.toks|
    ensures InStep(b.(toks := b.toks[i := b.toks[i].(end := b.pos + 1)], super := x, pos := b.pos + 1),
                   l.(toks := Closed(l.toks, i, l.pos + 1), super := y, pos := l.pos + 1))
  {
  }

  lemma CloseNone(slots: nat, b: State, l: State, typ: TokenType)
    requires Valid(Slots(slots), b) && Valid(Slots(slots), l) && Hangs(l)
    requires LastOpen(b.toks) == LastOpen(l.toks) == -1 && l.next >= 1
    ensures StepClose(BackwardScan, Slots(slots), b, typ) == Halt(INVAL)
    ensures var root := l.toks[Climb(l.toks, l.next - 1)];
            StepClose(ParentLinks, Slots(slots), l, typ) ==
              if root.typ != typ || l.super == -1 then Halt(INVAL) else Go(l.(pos := l.pos + 1))
  {
    hide LastOpen, Around, Climb;
    LinksClose(slots, l, typ);
  }

  lemma CloseNothing(slots: nat, b: State, l: State, typ: TokenType)
    requires Valid(Slots(slots), b) && Valid(Slots(slots), l) && LastOpen(b.toks) == -1 && l.next < 1
    ensures StepClose(BackwardScan, Slots(slots), b, typ) == StepClose(ParentLinks, Slots(slots), l, typ) == Halt(INVAL)
  {
    hide LastOpen, Climb;
  }

  lemma CommaInStep(slots: nat, b: State, l: State)
    requires Valid(Slots(slots), b) && Valid(Slots(slots), l) && InStep(b, l) && Hangs(l)
    ensures var m, k := StepComma(BackwardScan, Slots(slots), b), StepComma(ParentLinks, Slots(slots), l);
            InStep(m.s, k.s) && Hangs(k.s)
  {
    hide LastOpen, Around;
    if l.super != -1 && !Container(l.toks[l.super]) {
      assert GoodToken(l.toks[l.super], l.super);
      AroundAll(l.toks);
      if l.super + 1 < l.next { AroundBetween(l.toks, l.super, l.next - 1); AroundStep(l.toks, l.next - 1); }
      AroundStep(l.toks, l.super);
    }
  }

  /** One turn of the loop: unless a stray bracket passes, both builds do alike. */
  lemma StepInStep(js: string, slots: nat, b: State, l: State)
    requires Valid(Slots(slots), b) && Valid(Slots(slots), l) && InStep(b, l) && Hangs(l) && !AtEnd(js, l.pos)
    ensures var m, k := Step(BackwardScan, js, Slots(slots), b), Step(ParentLinks, js, Slots(slots), l);
            if Stray(js, l) then m == Halt(INVAL) && k.Go?
            else if m.Go? then k.Go? && InStep(m.s, k.s) && Hangs(k.s) else k == m
  {
    hide LastOpen, Around, Climb, StepOpen, StepClose, StepComma, StepLeaf, PrimitiveEnd, StringEnd;
    var c := js[l.pos];
    if c == '{' || c == '[' {
      OpenInStep(slots, b, l, if c == '{' then Object else Array);
    } else if c == '}' || c == ']' {
      CloseInStep(js, slots, b, l, if c == '}' then Object else Array);
    } else if c == '\"' {
      if StringEnd(js, l.pos + 1).Quote? {
        var q := StringEnd(js, l.pos + 1).at;
        LeafInStep(slots, b, l, String, l.pos + 1, q, q + 1);
      }
    } else if c == ',' {
      CommaInStep(slots, b, l);
    } else if !Blank(c) && c != ':' && PrimitiveEnd(js, l.pos).Some? {
      var e := PrimitiveEnd(js, l.pos).value;
      LeafInStep(slots, b, l, Primitive, l.pos, e, e);
    }
  }

  // ---------------------------------------------------------------- whole runs

  /** Somewhere in its run the links build lets a stray bracket pass. */
  predicate PassesStray(js: string, slots: nat, l: State)
    requires Valid(Slots(slots), l)
    decreases |js| - l.pos
  {
    !AtEnd(js, l.pos) &&
      (Stray(js, l) || var k := Step(ParentLinks, js, Slots(slots), l); k.Go? && PassesStray(js, slots, k.s))
  }

  lemma {:induction false} RunsInStep(js: string, slots: nat, b: State, l: State)
    requires Valid(Slots(slots), b) && Valid(Slots(slots), l) && InStep(b, l) && Hangs(l)
    ensures var scan, links := Run(BackwardScan, js, Slots(slots), b), Run(ParentLinks, js, Slots(slots), l);
            if PassesStray(js, slots, l) then scan.code == INVAL && scan.s.pos < links.s.pos
            else scan.code == links.code && InStep(scan.s, links.s)
    decreases |js| - l.pos
  {
    hide Step, InStep, Hangs, Valid, LastOpen, Stray;
    InStepMeans(b, l);
    if AtEnd(js, l.pos) {
    } else {
      StepInStep(js, slots, b, l);
      var m, k := Step(BackwardScan, js, Slots(slots), b), Step(ParentLinks, js, Slots(slots), l);
      if m.Go? { RunsInStep(js, slots, m.s, k.s); }
    }
  }

  lemma InStepMeans(b: State, l: State)
    requires InStep(b, l)
    ensures b.pos == l.pos && b.count == l.count && LastOpen(b.toks) == LastOpen(l.toks)
  {
    LastOpenAlike(b.toks, l.toks);
  }

  /** For every text, the builds return the same code, at the same position, with tokens of the same types and spans, if
      and only if the links build passes no stray bracket; where it does, the default build returns INVAL. */
  lemma BuildsAgreeExactly(js: string, slots: nat)
    ensures var scan, links := Parse(BackwardScan, js, Slots(slots), Start), Parse(ParentLinks, js, Slots(slots), Start);
            && (scan.code == links.code && InStep(scan.s, links.s) <==> !PassesStray(js, slots, Start))
            && (PassesStray(js, slots, Start) ==> scan.code == INVAL)
  {
    hide Run, PassesStray;
    RunsInStep(js, slots, Start, Start);
  }

  // ---------------------------------------------------------------- texts on which none passes

  /** Every ':' that the default build reads comes while some bracket is open. */
  predicate ColonsInside(js: string, slots: nat, b: State)
    requires Valid(Slots(slots), b)
    decreases |js| - b.pos
  {
    !AtEnd(js, b.pos) ==>
      && (js[b.pos] == ':' ==> LastOpen(b.toks) != -1)
      && var m := Step(BackwardScan, js, Slots(slots), b); (m.Go? ==> ColonsInside(js, slots, m.s))
  }

  /** While no bracket is open the next token hangs from none, and outermost open brackets hang from none. */
  ghost predicate TopHangs(l: State) {
    && (LastOpen(l.toks) == -1 ==> l.super == -1)
    && forall i :: 0 <= i < |l.toks| && Open(l.toks[i]) && Around(l.toks, i) == -1 ==> l.toks[i].parent == -1
  }

  lemma TopAdd(l: State, typ: TokenType, start: int, end: int)
    requires TopHangs(l) && |l.toks| == l.next && -1 <= l.super < |l.toks| && start != -1
    ensures var l' := Add(ParentLinks, l, typ, start, end);
            && LastOpen(l'.toks) == (if end == -1 then l.next else LastOpen(l.toks))
            && forall i :: 0 <= i < |l'.toks| && Open(l'.toks[i]) && Around(l'.toks, i) == -1 ==> l'.toks[i].parent == -1
  {
    hide LastOpen, Around;
    AddAround(l.toks, l.super, Token(typ, start, end, 0, l.super));
  }

  lemma TopClose(toks: seq<Token>, i: nat, end: int)
    requires i == LastOpen(toks) && end != -1
    requires forall k :: 0 <= k < |toks| && Open(toks[k]) && Around(toks, k) == -1 ==> toks[k].parent == -1
    ensures var r := Closed(toks, i, end);
            && LastOpen(r) == Around(toks, i)
            && (forall k :: 0 <= k < |r| && Open(r[k]) && Around(r, k) == -1 ==> r[k].parent == -1)
  {
    hide LastOpen, Around;
    var r := Closed(toks, i, end);
    forall k | 0 <= k < |r| && Open(r[k]) && Around(r, k) == -1
      ensures r[k].parent == -1
    {
      AroundAlike(r, toks, k);
    }
    AroundAll(r);
    ClosedAround(toks, i, end, |r|);
  }

  lemma TopOpens(slots: nat, l: State, typ: TokenType)
    requires Valid(Slots(slots), l) && TopHangs(l) && l.next < slots && (typ == Object || typ == Array)
    ensures var k := StepOpen(ParentLinks, Slots(slots), l, typ); k.Go? && TopHangs(k.s)
  {
    hide LastOpen, Around, GoodToken, Bump;
    TopAdd(l, typ, l.pos, -1);
  }

  lemma TopLeaf(slots: nat, l: State, typ: TokenType, start: nat, end: nat, after: nat)
    requires Valid(Slots(slots), l) && TopHangs(l) && l.next < slots
    ensures var k := StepLeaf(ParentLinks, Slots(slots), l, typ, start, end, after); k.Go? && TopHangs(k.s)
  {
    hide LastOpen, Around, GoodToken, Bump;
    TopAdd(l, typ, start, end);
  }

  lemma TopStepAdds(js: string, slots: nat, l: State)
    requires Valid(Slots(slots), l) && TopHangs(l) && !AtEnd(js, l.pos) && l.next < slots
    requires js[l.pos] != '}' && js[l.pos] != ']' && js[l.pos] != ':' && js[l.pos] != ',' && !Blank(js[l.pos])
    ensures var k := Step(ParentLinks, js, Slots(slots), l); k.Go? ==> TopHangs(k.s)
  {
    hide Valid, TopHangs, StepOpen, StepClose, StepComma, StepLeaf, PrimitiveEnd, StringEnd;
    var c := js[l.pos];
    if c == '{' || c == '[' {
      TopOpens(slots, l, if c == '{' then Object else Array);
    } else if c == '\"' {
      if StringEnd(js, l.pos + 1).Quote? {
        var q := StringEnd(js, l.pos + 1).at;
        TopLeaf(slots, l, String, l.pos + 1, q, q + 1);
      }
    } else if PrimitiveEnd(js, l.pos).Some? {
      var e := PrimitiveEnd(js, l.pos).value;
      TopLeaf(slots, l, Primitive, l.pos, e, e);
    }
  }

  lemma TopStepCloses(js: string, slots: nat, l: State, typ: TokenType)
    requires Valid(Slots(slots), l) && Hangs(l) && TopHangs(l) && (typ == Object || typ == Array)
    ensures var k := StepClose(ParentLinks, Slots(slots), l, typ);
            && (k.Go? ==> TopHangs(k.s)) && (LastOpen(l.toks) == -1 ==> l.super == -1)
  {
    hide LastOpen, Around, Climb, Closed, GoodToken;
    if l.next >= 1 {
      LinksClose(slots, l, typ);
      if LastOpen(l.toks) != -1 { TopClose(l.toks, LastOpen(l.toks), l.pos + 1); }
    }
  }

  lemma TopStep(js: string, slots: nat, l: State)
    requires Valid(Slots(slots), l) && Hangs(l) && TopHangs(l) && !AtEnd(js, l.pos)
    requires js[l.pos] == ':' ==> LastOpen(l.toks) != -1
    ensures var k := Step(ParentLinks, js, Slots(slots), l);
            !Stray(js, l) && (k.Go? ==> TopHangs(k.s))
  {
    hide LastOpen, Around, Climb, StepClose, StepOpen, StepLeaf, PrimitiveEnd, StringEnd;
    var c := js[l.pos];
    if c == '}' || c == ']' {
      TopStepCloses(js, slots, l, if c == '}' then Object else Array);
    } else if c != ':' && c != ',' && !Blank(c) {
      if l.next < slots { TopStepAdds(js, slots, l); } else { FullHalts(js, slots, l); }
    }
  }

  lemma FullHalts(js: string, slots: nat, l: State)
    requires Valid(Slots(slots), l) && !AtEnd(js, l.pos) && l.next >= slots
    requires js[l.pos] != '}' && js[l.pos] != ']' && js[l.pos] != ':' && js[l.pos] != ',' && !Blank(js[l.pos])
    ensures Step(ParentLinks, js, Slots(slots), l).Halt?
  {
    hide LastOpen, Climb, PrimitiveEnd, StringEnd;
  }

  lemma {:induction false} NonePasses(js: string, slots: nat, b: State, l: State)
    requires Valid(Slots(slots), b) && Valid(Slots(slots), l) && InStep(b, l) && Hangs(l) && TopHangs(l)
    requires ColonsInside(js, slots, b)
    ensures !PassesStray(js, slots, l)
    decreases |js| - l.pos
  {
    hide Step, InStep, Hangs, TopHangs, Valid, LastOpen, Stray;
    InStepMeans(b, l);
    if !AtEnd(js, l.pos) {
      TopStep(js, slots, l);
      StepInStep(js, slots, b, l);
      var m, k := Step(BackwardScan, js, Slots(slots), b), Step(ParentLinks, js, Slots(slots), l);
      if m.Go? { NonePasses(js, slots, m.s, k.s); }
    }
  }

  /** So on every text, well-formed or not, in which each ':' comes while a bracket is open, the builds agree. */
  lemma BuildsAgreeOnInnerColons(js: string, slots: nat)
    requires ColonsInside(js, slots, Start)
    ensures var scan, links := Parse(BackwardScan, js, Slots(slots), Start), Parse(ParentLinks, js, Slots(slots), Start);
            scan.code == links.code && InStep(scan.s, links.s)
  {
    hide Run, PassesStray, ColonsInside;
    NonePasses(js, slots, Start, Start);
    BuildsAgreeExactly(js, slots);
  }
}
