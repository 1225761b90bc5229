/** What the tokenizer's two scans find, for every text, in terms of the grammar alone. */
module JsmnLexer {
  import opened Basics
  import opened Jsmn
  import opened JsonGrammar

  // ---------------------------------------------------------------- bare words

  /** Where a bare word ends: with the text, at white space, or at one of , : ] }. */
  predicate WordEnds(js: string, i: nat) {
    TextEnds(js, i) || White(js[i]) || js[i] == ',' || js[i] == ':' || js[i] == ']' || js[i] == '}'
  }

  predicate Printable(c: char) { ' ' <= c <= '~' }

  /** The scan of a bare word stops at the first place where it ends, if every character before it is printable, and
      fails at the first that is not. */
  lemma {:induction false} WordExactly(js: string, i: nat)
    requires i <= |js|
    ensures forall e: nat :: PrimitiveEnd(js, i) == Some(e) <==> i <= e <= |js| && WordEnds(js, e) && Through(js, i, e)
    ensures PrimitiveEnd(js, i) == None <==>
              exists k: nat :: i <= k < |js| && Through(js, i, k) && !WordEnds(js, k) && !Printable(js[k])
    decreases |js| - i
  {
    if !WordEnds(js, i) {
      if Printable(js[i]) {
        WordExactly(js, i + 1);
        forall k: nat | i <= k <= |js|
          ensures k > i ==> (Through(js, i, k) <==> Through(js, i + 1, k))
        {
        }
        if PrimitiveEnd(js, i) == None {
          var k: nat :| i + 1 <= k < |js| && Through(js, i + 1, k) && !WordEnds(js, k) && !Printable(js[k]);
          assert Through(js, i, k);
        }
      } else {
        assert Through(js, i, i);
      }
    }
  }

  /** From i up to k the word goes on, in printable characters. */
  predicate Through(js: string, i: nat, k: nat) {
    forall j :: i <= j < k ==> !WordEnds(js, j) && j < |js| && Printable(js[j])
  }

  // ---------------------------------------------------------------- strings

  /** A backslash at k that begins no escape, though there is text behind it. */
  predicate BrokenEscape(js: string, k: nat) {
    && k + 1 < |js| && js[k] == '\\' && !EscapeLetter(js[k + 1])
    && (js[k + 1] == 'u' ==> BrokenHex(js, k + 2, 4))
  }

  /** Among the n characters from i on, the first that is no hex digit comes before the end of the text. */
  predicate BrokenHex(js: string, i: nat, n: nat)
    decreases n
  {
    n > 0 && !TextEnds(js, i) && (!HexDigit(js[i]) || BrokenHex(js, i + 1, n - 1))
  }

  predicate FourHex(js: string, i: nat) {
    i + 4 <= |js| && HexDigit(js[i]) && HexDigit(js[i + 1]) && HexDigit(js[i + 2]) && HexDigit(js[i + 3])
  }

  /** Skipping hex digits fails on a broken run, passes a full one, and stops where the text ends in the middle of one. */
  lemma {:induction false} HexExactly(js: string, i: nat, n: nat)
    requires i <= |js|
    ensures SkipHex(js, i, n) == None <==> BrokenHex(js, i, n)
    ensures SkipHex(js, i, n).Some? ==>
              var v := SkipHex(js, i, n).value;
              && i <= v <= |js| && v <= i + n && (v < i + n ==> TextEnds(js, v))
              && forall j :: i <= j < v ==> HexDigit(js[j])
    decreases n
  {
    if n > 0 && !TextEnds(js, i) && HexDigit(js[i]) { HexExactly(js, i + 1, n - 1); }
  }

  lemma HexStops(js: string, i: nat)
    requires i <= |js|
    ensures SkipHex(js, i, 4) == None <==> BrokenHex(js, i, 4)
    ensures SkipHex(js, i, 4).Some? ==>
              var v := SkipHex(js, i, 4).value;
              v <= |js| && if FourHex(js, i) then v == i + 4 else TextEnds(js, v)
  {
    hide SkipHex, BrokenHex;
    HexExactly(js, i, 4);
  }

  /** A body that goes on at i, by what stands there. */
  lemma BodyFrom(js: string, i: nat, k: nat)
    requires i < k <= |js|
    ensures js[i] == '\"' || js[i] == '\0' ==> !StringBody(js[i..k])
    ensures js[i] != '\"' && js[i] != '\0' && js[i] != '\\' ==> StringBody(js[i..k]) == StringBody(js[i + 1..k])
    ensures js[i] == '\\' ==>
              StringBody(js[i..k]) ==
                if k < i + 2 then false
                else if EscapeLetter(js[i + 1]) then StringBody(js[i + 2..k])
                else k >= i + 6 && js[i + 1] == 'u' && FourHex(js, i + 2) && StringBody(js[i + 6..k])
  {
    var s := js[i..k];
    assert s[1..] == js[i + 1..k];
    if k >= i + 2 { assert s[2..] == js[i + 2..k] && s[1] == js[i + 1]; }
    if k >= i + 6 {
      assert s[6..] == js[i + 6..k];
      assert s[2] == js[i + 2] && s[3] == js[i + 3] && s[4] == js[i + 4] && s[5] == js[i + 5];
    }
  }

  /** A legal body from i to q, and its closing quote. */
  predicate ClosedAt(js: string, i: nat, q: nat) {
    i <= q < |js| && js[q] == '\"' && StringBody(js[i..q])
  }

  /** A legal body from i to k, and a broken escape. */
  predicate BrokenAt(js: string, i: nat, k: nat) {
    i <= k < |js| && StringBody(js[i..k]) && BrokenEscape(js, k)
  }

  lemma NothingYet(js: string, i: nat)
    requires i <= |js|
    ensures StringBody(js[i..i])
  {
  }

  /** How far the scan goes in one turn. */
  function NextUnit(js: string, i: nat): nat
    requires i < |js|
  {
    if js[i] != '\\' then i + 1 else if i + 1 < |js| && js[i + 1] == 'u' then i + 6 else i + 2
  }

  predicate UnitAt(js: string, i: nat)
    requires i < |js|
  {
    && js[i] != '\"' && js[i] != '\0'
    && (js[i] == '\\' ==> i + 1 < |js| && (EscapeLetter(js[i + 1]) || (js[i + 1] == 'u' && FourHex(js, i + 2))))
  }

  lemma FullRun(js: string, i: nat)
    requires FourHex(js, i)
    ensures !BrokenHex(js, i, 4)
  {
    assert !BrokenHex(js, i + 4, 0);
    assert !BrokenHex(js, i + 3, 1) && !BrokenHex(js, i + 2, 2) && !BrokenHex(js, i + 1, 3);
  }

  /** Past one whole unit of a body, the same places close it and break it. */
  lemma SameFurtherOn(js: string, i: nat, q: nat)
    requires i < |js| && UnitAt(js, i)
    ensures NextUnit(js, i) <= |js|
    ensures ClosedAt(js, i, q) <==> ClosedAt(js, NextUnit(js, i), q)
    ensures BrokenAt(js, i, q) <==> BrokenAt(js, NextUnit(js, i), q)
  {
    hide StringBody, BrokenHex;
    if FourHex(js, i + 2) { FullRun(js, i + 2); }
    if i < q < |js| { BodyFrom(js, i, q); }
  }

  /** Where no whole unit stands, nothing further on closes or breaks it. */
  lemma NothingFurtherOn(js: string, i: nat, q: nat)
    requires i < |js| && !UnitAt(js, i) && q != i
    ensures !ClosedAt(js, i, q) && !BrokenAt(js, i, q)
  {
    hide StringBody, BrokenHex;
    if i < q < |js| { BodyFrom(js, i, q); }
  }

  /** One turn of the scan. */
  lemma ScanTurn(js: string, i: nat)
    requires i < |js|
    ensures UnitAt(js, i) ==> NextUnit(js, i) <= |js| && StringEnd(js, i) == StringEnd(js, NextUnit(js, i))
    ensures !UnitAt(js, i) ==>
              StringEnd(js, i) == if js[i] == '\"' then Quote(i) else if BrokenEscape(js, i) then BadString else OpenString
  {
    if js[i] == '\\' && i + 1 < |js| && js[i + 1] == 'u' { HexStops(js, i + 2); }
  }

  /** The scan of a string finds its closing quote exactly where a legal body ends, and fails exactly where one is
      followed by a broken escape. */
  lemma {:induction false} StringExactly(js: string, i: nat)
    requires i <= |js|
    ensures forall q: nat :: StringEnd(js, i) == Quote(q) <==> ClosedAt(js, i, q)
    ensures StringEnd(js, i) == BadString <==> exists k: nat :: BrokenAt(js, i, k)
    decreases |js| - i
  {
    hide StringEnd, ClosedAt, BrokenAt, UnitAt, NextUnit;
    if i == |js| {
      NothingLeft(js);
    } else {
      ScanTurn(js, i);
      if UnitAt(js, i) {
        FurtherOn(js, i);
        StringExactly(js, NextUnit(js, i));
        forall q: nat
          ensures ClosedAt(js, i, q) <==> ClosedAt(js, NextUnit(js, i), q)
          ensures BrokenAt(js, i, q) <==> BrokenAt(js, NextUnit(js, i), q)
        {
          SameFurtherOn(js, i, q);
        }
      } else {
        forall q: nat
          ensures ClosedAt(js, i, q) <==> q == i && js[i] == '\"'
          ensures BrokenAt(js, i, q) <==> q == i && BrokenEscape(js, i)
        {
          if q == i { HereOnly(js, i); } else { NothingFurtherOn(js, i, q); }
        }
        HereOnly(js, i);
      }
    }
  }

  lemma FurtherOn(js: string, i: nat)
    requires i < |js|
    ensures i < NextUnit(js, i)
  {
  }

  lemma HereOnly(js: string, i: nat)
    requires i < |js|
    ensures ClosedAt(js, i, i) <==> js[i] == '\"'
    ensures BrokenAt(js, i, i) <==> BrokenEscape(js, i)
    ensures BrokenEscape(js, i) ==> js[i] == '\\'
  {
    NothingYet(js, i);
  }

  lemma NothingLeft(js: string)
    ensures StringEnd(js, |js|) == OpenString
    ensures forall q: nat :: !ClosedAt(js, |js|, q) && !BrokenAt(js, |js|, q)
  {
  }
}
