/** Calling the tokenizer again: after NOMEM with more slots, after any stop on a longer text, and after a
    dry run that counted the tokens. */
module JsmnResume {
  import opened Basics
  import opened Jsmn

  // ---------------------------------------------------------------- counting

  /** With a token array, the local `count` of the loop is the number of tokens. */
  lemma {:induction false} CountIsNext(build: Build, js: string, slots: nat, s: State)
    requires Valid(Slots(slots), s) && s.count == s.next
    ensures var r := Run(build, js, Slots(slots), s); r.s.count == r.s.next && (r.code >= 0 ==> r.code == r.s.next)
    decreases |js| - s.pos
  {
    hide Step;
    if !AtEnd(js, s.pos) {
      StepCounts(build, js, slots, s);
      var m := Step(build, js, Slots(slots), s);
      if m.Go? { CountIsNext(build, js, slots, m.s); }
    }
  }

  lemma StepCounts(build: Build, js: string, slots: nat, s: State)
    requires Valid(Slots(slots), s) && !AtEnd(js, s.pos)
    ensures var m := Step(build, js, Slots(slots), s);
            if m.Go? then m.s.count - m.s.next == s.count - s.next
            else m.code == NOMEM || m.code == INVAL || m.code == PART
  {
  }

  // ---------------------------------------------------------------- more slots

  lemma StepMoreSlots(build: Build, js: string, few: nat, many: nat, s: State)
    requires Valid(Slots(few), s) && few <= many && !AtEnd(js, s.pos)
    ensures Valid(Slots(many), s)
    ensures var m := Step(build, js, Slots(few), s);
            m == Halt(NOMEM) || Step(build, js, Slots(many), s) == m
  {
  }

  lemma {:induction false} RunMoreSlots(build: Build, js: string, few: nat, many: nat, s: State)
    requires Valid(Slots(few), s) && few <= many
    ensures var r := Run(build, js, Slots(few), s);
            && Valid(Slots(many), s) && Valid(Slots(many), r.s)
            && (if r.code == NOMEM then Run(build, js, Slots(many), r.s) == Run(build, js, Slots(many), s)
                else s.count == s.next ==> Run(build, js, Slots(many), s) == r)
    decreases |js| - s.pos
  {
    hide Step;
    if !AtEnd(js, s.pos) {
      StepMoreSlots(build, js, few, many, s);
      StepCounts(build, js, few, s);
      var m := Step(build, js, Slots(few), s);
      if m.Go? { RunMoreSlots(build, js, few, many, m.s); }
    }
  }

  /** After NOMEM, a second call with a larger array that starts with the same tokens ends as one call with the
      larger array would have; and slots beyond those needed change nothing. */
  lemma ResumeAfterNoMem(build: Build, js: string, few: nat, many: nat, s: State)
    requires Valid(Slots(few), s) && few <= many
    ensures var r := Parse(build, js, Slots(few), s);
            && Valid(Slots(many), s) && Valid(Slots(many), r.s)
            && (if r.code == NOMEM then Parse(build, js, Slots(many), r.s) == Parse(build, js, Slots(many), s)
                else Parse(build, js, Slots(many), s) == r)
  {
    var s0 := s.(count := s.next);
    RunMoreSlots(build, js, few, many, s0);
    CountIsNext(build, js, few, s0);
    var r := Run(build, js, Slots(few), s0);
    assert r.s.(count := r.s.next) == r.s;
  }

  // ---------------------------------------------------------------- more text

  /** The last token is a primitive that was cut off by the end of the text. */
  predicate InPrimitive(js: string, s: State) {
    s.toks != [] && s.toks[|s.toks| - 1].typ == Primitive && s.toks[|s.toks| - 1].end == |js|
  }

  /** Text that would lengthen a primitive before it. */
  predicate Continues(more: string) { more != "" && more[0] != '\0' && !EndsPrimitive(more[0]) }

  lemma {:induction false} PrimitiveExtends(js: string, more: string, i: nat)
    requires i <= |js|
    ensures var e := PrimitiveEnd(js, i);
            if e == Some(|js|) then PrimitiveEnd(js + more, i) == PrimitiveEnd(js + more, |js|)
            else PrimitiveEnd(js + more, i) == e
    ensures !Continues(more) ==> PrimitiveEnd(js + more, |js|) == Some(|js|)
    decreases |js| - i
  {
    if i < |js| { PrimitiveExtends(js, more, i + 1); }
  }

  lemma {:induction false} HexExtends(js: string, more: string, i: nat, k: nat)
    requires i <= |js|
    ensures var h := SkipHex(js, i, k);
            h.None? || h.value < |js| ==> SkipHex(js + more, i, k) == h
    decreases k
  {
    if k > 0 && i < |js| { HexExtends(js, more, i + 1, k - 1); }
  }

  lemma {:induction false} StringExtends(js: string, more: string, i: nat)
    requires i <= |js|
    ensures var r := StringEnd(js, i);
            !r.OpenString? ==> StringEnd(js + more, i) == r
    decreases |js| - i
  {
    if i < |js| && js[i] != '\0' && js[i] != '\"' {
      if js[i] == '\\' && i + 1 < |js| {
        if SimpleEscape(js[i + 1]) {
          StringExtends(js, more, i + 2);
        } else if js[i + 1] == 'u' {
          HexExtends(js, more, i + 2, 4);
          var h := SkipHex(js, i + 2, 4);
          if h.Some? && h.value < |js| { StringExtends(js, more, h.value); }
        }
      } else {
        StringExtends(js, more, i + 1);
      }
    }
  }

  predicate StartsPrimitive(c: char) { !EndsPrimitive(c) && c != '{' && c != '[' && c != '\"' }

  lemma OtherStepExtends(build: Build, js: string, more: string, slots: nat, s: State)
    requires Valid(Slots(slots), s) && !AtEnd(js, s.pos) && !InPrimitive(js, s)
    requires !StartsPrimitive(js[s.pos])
    ensures var m := Step(build, js, Slots(slots), s);
            && (m.Go? ==> !InPrimitive(js, m.s))
            && (m != Halt(PART) ==> Step(build, js + more, Slots(slots), s) == m)
  {
    hide StringEnd, PrimitiveEnd, LastOpen, Climb;
    StringExtends(js, more, s.pos + 1);
    assert (js + more)[s.pos] == js[s.pos];
  }

  lemma PrimitiveStepExtends(build: Build, js: string, more: string, slots: nat, s: State)
    requires Valid(Slots(slots), s) && !AtEnd(js, s.pos)
    requires StartsPrimitive(js[s.pos])
    ensures var m := Step(build, js, Slots(slots), s);
            var m' := Step(build, js + more, Slots(slots), s);
            && (m.Go? && !InPrimitive(js, m.s) ==> m' == m)
            && (m.Go? && InPrimitive(js, m.s) ==>
                  && m.s.pos == |js|
                  && (if !Continues(more) then m' == m
                      else m' == Halt(INVAL) ||
                           (m'.Go? && |m'.s.toks| == |m.s.toks| > 0 && Frozen(m'.s) && m'.s.toks[|m.s.toks| - 1].end > |js|)))
  {
    hide LastOpen, Climb;
    PrimitiveExtends(js, more, s.pos);
    assert (js + more)[s.pos] == js[s.pos];
    if Continues(more) { assert (js + more)[|js|] == more[0]; }
  }

  /** A turn that did not run into the end of the text is the same turn on any extension. */
  lemma StepExtends(build: Build, js: string, more: string, slots: nat, s: State)
    requires Valid(Slots(slots), s) && !AtEnd(js, s.pos) && !InPrimitive(js, s)
    ensures var m := Step(build, js, Slots(slots), s);
            var m' := Step(build, js + more, Slots(slots), s);
            && (m.Go? && !InPrimitive(js, m.s) ==> m' == m)
            && (m.Go? && InPrimitive(js, m.s) ==>
                  && m.s.pos == |js|
                  && (if !Continues(more) then m' == m
                      else m' == Halt(INVAL) ||
                           (m'.Go? && |m'.s.toks| == |m.s.toks| > 0 && Frozen(m'.s) && m'.s.toks[|m.s.toks| - 1].end > |js|)))
  {
    hide Step;
    if StartsPrimitive(js[s.pos]) {
      PrimitiveStepExtends(build, js, more, slots, s);
    } else {
      OtherStepExtends(build, js, more, slots, s);
    }
  }

  predicate Frozen(s: State) { s.toks != [] && !Open(s.toks[|s.toks| - 1]) }

  /** Tokens are never removed, and a closed token keeps its end. */
  lemma {:induction false} ClosedForGood(build: Build, js: string, slots: nat, s: State, i: nat)
    requires Valid(Slots(slots), s) && i < |s.toks| && !Open(s.toks[i])
    ensures var t := Run(build, js, Slots(slots), s).s.toks;
            |s.toks| <= |t| && !Open(t[i]) && t[i].end == s.toks[i].end
    decreases |js| - s.pos
  {
    hide Step;
    if !AtEnd(js, s.pos) {
      ClosedStep(build, js, slots, s, i);
      var m := Step(build, js, Slots(slots), s);
      if m.Go? { ClosedForGood(build, js, slots, m.s, i); }
    }
  }

  lemma ClosedStep(build: Build, js: string, slots: nat, s: State, i: nat)
    requires Valid(Slots(slots), s) && i < |s.toks| && !Open(s.toks[i]) && !AtEnd(js, s.pos)
    ensures var m := Step(build, js, Slots(slots), s);
            m.Go? ==> |s.toks| <= |m.s.toks| && !Open(m.s.toks[i]) && m.s.toks[i].end == s.toks[i].end
  {
    assert GoodToken(s.toks[i], i);
  }

  lemma {:induction false} RunExtends(build: Build, js: string, more: string, slots: nat, s: State)
    requires Valid(Slots(slots), s) && !InPrimitive(js, s)
    ensures var r := Run(build, js, Slots(slots), s);
            var same := Run(build, js + more, Slots(slots), r.s) == Run(build, js + more, Slots(slots), s);
            same <==> !(InPrimitive(js, r.s) && Continues(more))
    decreases |js| - s.pos
  {
    hide Step, InPrimitive;
    if AtEnd(js, s.pos) {
      return;
    }
    var js' := js + more;
    assert js'[s.pos] == js[s.pos];
    var m := Step(build, js, Slots(slots), s);
    var m' := Step(build, js', Slots(slots), s);
    StepExtends(build, js, more, slots, s);
    if m.Go? && !InPrimitive(js, m.s) {
      RunExtends(build, js, more, slots, m.s);
    } else if m.Go? {
      assert Run(build, js, Slots(slots), s).s == m.s;
      if Continues(more) {
        var last := |m.s.toks| - 1;
        InPrimitiveLast(js, m.s);
        ClosedForGood(build, js', slots, m.s, last);
        if m'.Go? { ClosedForGood(build, js', slots, m'.s, last); }
        StepAllocates(build, js, slots, s);
      }
    }
  }

  lemma InPrimitiveLast(js: string, s: State)
    requires InPrimitive(js, s)
    ensures s.toks != [] && !Open(s.toks[|s.toks| - 1]) && s.toks[|s.toks| - 1].end == |js|
  {
  }

  lemma StepAllocates(build: Build, js: string, slots: nat, s: State)
    requires Valid(Slots(slots), s) && !AtEnd(js, s.pos) && !InPrimitive(js, s)
    ensures var m := Step(build, js, Slots(slots), s);
            m.Go? && InPrimitive(js, m.s) ==> |m.s.toks| == |s.toks| + 1
  {
  }

  /** Calling again on a longer text gives what one call on the whole text gives, tokens and all, unless the
      first call stopped inside a primitive and the new text continues it - and then it never does. */
  lemma ResumeOnMoreText(build: Build, js: string, more: string, slots: nat)
    ensures var r := Parse(build, js, Slots(slots), Start);
            var same := Parse(build, js + more, Slots(slots), r.s) == Parse(build, js + more, Slots(slots), Start);
            same <==> !(InPrimitive(js, r.s) && Continues(more))
  {
    RunExtends(build, js, more, slots, Start);
    CountIsNext(build, js, slots, Start);
    var r := Run(build, js, Slots(slots), Start);
    assert r.s.(count := r.s.next) == r.s;
  }

  /** A parse of "1", resumed on "12": the second digit becomes a token of its own, where one call has one token. */
  lemma ResumedNumber(build: Build)
    ensures var one, two := Token(Primitive, 0, 1, 0, -1), Token(Primitive, 1, 2, 0, -1);
            var r := Parse(build, "1", Slots(2), Start);
            && r == Outcome(1, State(1, 1, -1, [one], 1))
            && Parse(build, "1" + "2", Slots(2), r.s) == Outcome(2, State(2, 2, -1, [one, two], 2))
            && Parse(build, "1" + "2", Slots(2), Start) == Outcome(1, State(2, 1, -1, [Token(Primitive, 0, 2, 0, -1)], 1))
  {
    hide Run, Step;
    var one, two, both := Token(Primitive, 0, 1, 0, -1), Token(Primitive, 1, 2, 0, -1), Token(Primitive, 0, 2, 0, -1);
    assert "1" + "2" == "12";
    DigitSteps(build);
    RunOnce(build, "1", Start, State(1, 1, -1, [one], 1));
    RunOnce(build, "12", State(1, 1, -1, [one], 1), State(2, 2, -1, [one, two], 2));
    RunOnce(build, "12", Start, State(2, 1, -1, [both], 1));
  }

  lemma DigitSteps(build: Build)
    ensures var one, two := Token(Primitive, 0, 1, 0, -1), Token(Primitive, 1, 2, 0, -1);
            && Step(build, "1", Slots(2), Start) == Go(State(1, 1, -1, [one], 1))
            && Step(build, "12", Slots(2), State(1, 1, -1, [one], 1)) == Go(State(2, 2, -1, [one, two], 2))
            && Step(build, "12", Slots(2), Start) == Go(State(2, 1, -1, [Token(Primitive, 0, 2, 0, -1)], 1))
  {
    hide LastOpen, Climb, StringEnd;
    assert PrimitiveEnd("1", 0) == PrimitiveEnd("1", 1) == Some(1);
    assert PrimitiveEnd("12", 0) == PrimitiveEnd("12", 1) == PrimitiveEnd("12", 2) == Some(2);
  }

  /** One turn, and the end of the text with no bracket open. */
  lemma RunOnce(build: Build, js: string, s: State, t: State)
    requires Valid(Slots(2), s) && !AtEnd(js, s.pos) && Step(build, js, Slots(2), s) == Go(t)
    requires AtEnd(js, t.pos) && LastOpen(t.toks) == -1
    ensures Run(build, js, Slots(2), s) == Outcome(t.count, t)
  {
    hide Step, LastOpen;
  }

  // ---------------------------------------------------------------- dry runs

  /** The state of a dry run beside that of a real one. */
  predicate Shadows(d: State, s: State) { d.pos == s.pos && d.count == s.count && s.count == s.next }

  lemma StepDry(build: Build, js: string, slots: nat, s: State, d: State)
    requires Valid(Slots(slots), s) && Valid(NoTokens, d) && Shadows(d, s) && !AtEnd(js, s.pos)
    ensures var m := Step(build, js, Slots(slots), s);
            var n := Step(build, js, NoTokens, d);
            && (n.Halt? ==> m.Halt? && n.code < 0)
            && (m.Go? ==> n.Go? && Shadows(n.s, m.s))
            && (n.Go? ==> d.count <= n.s.count)
            && (m == Halt(NOMEM) ==> s.next == slots && (n.Go? ==> n.s.count == d.count + 1))
  {
  }

  lemma {:induction false} DryCounts(build: Build, js: string, d: State)
    requires Valid(NoTokens, d) && 0 <= d.count
    ensures var r := Run(build, js, NoTokens, d); r.code >= 0 ==> r.code >= d.count
    decreases |js| - d.pos
  {
    hide Step;
    if !AtEnd(js, d.pos) {
      StepDryGrows(build, js, d);
      var n := Step(build, js, NoTokens, d);
      if n.Go? { DryCounts(build, js, n.s); }
    }
  }

  lemma StepDryGrows(build: Build, js: string, d: State)
    requires Valid(NoTokens, d) && !AtEnd(js, d.pos)
    ensures var n := Step(build, js, NoTokens, d);
            if n.Go? then d.count <= n.s.count else n.code < 0
  {
  }

  lemma {:induction false} RunDry(build: Build, js: string, slots: nat, s: State, d: State)
    requires Valid(Slots(slots), s) && Valid(NoTokens, d) && Shadows(d, s)
    ensures var full := Run(build, js, Slots(slots), s);
            var dry := Run(build, js, NoTokens, d);
            && (full.code >= 0 ==> dry.code == full.code)
            && (dry.code >= 0 ==>
                  && (full.code == NOMEM ==> slots < dry.code)
                  && (full.code == PART ==> full.s.next == dry.code)
                  && (full.code != NOMEM && full.code != INVAL ==> dry.code <= slots))
    decreases |js| - s.pos
  {
    hide Step;
    if !AtEnd(js, s.pos) {
      StepDry(build, js, slots, s, d);
      StepCounts(build, js, slots, s);
      var m := Step(build, js, Slots(slots), s);
      var n := Step(build, js, NoTokens, d);
      if m.Go? {
        RunDry(build, js, slots, m.s, n.s);
      } else if n.Go? {
        DryCounts(build, js, n.s);
        if m.code == PART { StepNoPart(build, js, slots, s, d); }
      }
    }
  }

  lemma StepNoPart(build: Build, js: string, slots: nat, s: State, d: State)
    requires Valid(Slots(slots), s) && Valid(NoTokens, d) && Shadows(d, s) && !AtEnd(js, s.pos)
    requires Step(build, js, NoTokens, d).Go?
    ensures Step(build, js, Slots(slots), s) != Halt(PART)
  {
  }

  /** A dry run sizes the real run.  A parse that returns n is one whose dry run returns n; when the dry run
      returns n, a parse with at least n slots never returns NOMEM, and one with fewer never gets past NOMEM
      or INVAL. */
  lemma DryRunSizes(build: Build, js: string, slots: nat)
    ensures var full := Parse(build, js, Slots(slots), Start).code;
            var dry := Parse(build, js, NoTokens, Start).code;
            && (full >= 0 ==> dry == full)
            && (dry >= 0 && slots >= dry ==> full != NOMEM)
            && (dry >= 0 && slots < dry ==> full == NOMEM || full == INVAL)
  {
    RunDry(build, js, slots, Start, Start);
  }
}
