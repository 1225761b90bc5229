/** findToken and jsoneq (aws_iot_json_utils.c): looking a key up in the flat token list by walking spans. */
module JsonLookup {
  import opened Basics
  import opened Jsmn
  import opened JsonGrammar
  import opened JsonText
  import opened JsmnTree

  /** The token found, NULL, or a walk that would run past the last slot of the array. */
  datatype Lookup = Found(index: nat) | Absent | Overrun

  predicate Spells(js: string, t: Token, key: string) {
    t.typ == String && |key| == t.end - t.start && 0 <= t.start <= t.end <= |js| && js[t.start..t.end] == key
  }

  /** The first slot from i on whose start is not below `end`. */
  function Skip(toks: seq<Token>, i: nat, end: int): (r: nat)
    ensures r >= i && (i <= |toks| ==> r <= |toks|)
    ensures forall j :: i <= j < r && j < |toks| ==> toks[j].start < end
    ensures r < |toks| ==> toks[r].start >= end
    decreases |toks| - i
  {
    if i >= |toks| || toks[i].start >= end then i else Skip(toks, i + 1, end)
  }

  /** The search loop with n properties to go, the next key expected in slot i. */
  function FindFrom(js: string, key: string, toks: seq<Token>, i: nat, n: nat): Lookup
    decreases n
  {
    if n == 0 then Absent
    else if i >= |toks| then Overrun
    else if Spells(js, toks[i], key) then Found(i + 1)
    else if i + 1 >= |toks| then Overrun
    else
      var j := Skip(toks, i + 2, toks[i + 1].end);
      if j >= |toks| then Overrun else FindFrom(js, key, toks, j, n - 1)
  }

  function FindToken(js: string, key: string, toks: seq<Token>, t: nat): Lookup
    requires t < |toks|
  {
    if toks[t].typ != Object || toks[t].size <= 0 then Absent else FindFrom(js, key, toks, t + 1, toks[t].size)
  }

  /** The loop as written, over token indices in place of token pointers; -1 stands for NULL. */
  method FindTokenInArray(js: string, key: string, tokens: array<Token>, t: nat) returns (result: int)
    requires t < tokens.Length && tokens[t].size >= 0
    requires FindToken(js, key, tokens[..], t) != Overrun
    ensures match FindToken(js, key, tokens[..], t)
            case Found(i) => result == i
            case Absent => result == -1
            case Overrun => false
  {
    if tokens[t].typ != Object {
      return -1;
    }
    if tokens[t].size == 0 {
      return -1;
    }
    result := t + 1;
    var i := 0;
    while i < tokens[t].size
      invariant 0 <= i <= tokens[t].size && 0 <= result
      invariant FindFrom(js, key, tokens[..], result, tokens[t].size - i) == FindToken(js, key, tokens[..], t)
    {
      if Spells(js, tokens[result], key) {
        return result + 1;
      }
      var propertyEnd := tokens[result + 1].end;
      ghost var first := result + 2;
      result := result + 2;
      while tokens[result].start < propertyEnd
        invariant first <= result < tokens.Length
        invariant Skip(tokens[..], result, propertyEnd) == Skip(tokens[..], first, propertyEnd) < tokens.Length
        decreases tokens.Length - result
      {
        result := result + 1;
      }
      i := i + 1;
    }
    return -1;
  }

  // ---------------------------------------------------------------- on the tokens of a tree

  /** Where the tokens of a member's value start, and where its value ends in the text. */
  function ValueAt(ms: Members, at: nat): nat
    requires ms.Member?
  {
    at + |KeyText(ms)|
  }

  function RestAt(ms: Members, at: nat): nat
    requires ms.Member?
  {
    at + |KeyText(ms)| + |Text(ms.v)| + |ms.post| + 1
  }

  function Width(build: Build, ms: Members, at: nat, i: nat): nat
    requires ms.Member?
  {
    1 + |Tokens(build, ms.v, ValueAt(ms, at), i + 1, i)|
  }

  /** The token of the value of the first member spelled `key`, when the first key is token i. */
  function MemberIndex(build: Build, ms: Members, key: string, at: nat, i: nat): Option<nat>
    decreases ms
  {
    if ms.NoMembers? then None
    else if ms.key == key then Some(i + 1)
    else MemberIndex(build, ms.rest, key, RestAt(ms, at), i + Width(build, ms, at, i))
  }

  /** Where the last member's value ends. */
  function LastEnd(build: Build, ms: Members, at: nat): int
    requires ms.Member?
  {
    if ms.rest.NoMembers? then Tokens(build, ms.v, ValueAt(ms, at), 0, -1)[0].end
    else LastEnd(build, ms.rest, RestAt(ms, at))
  }

  predicate Within(block: seq<Token>, lo: int, hi: int) { forall i :: 0 <= i < |block| ==> lo <= block[i].start <= hi }

  lemma WithinConcat(xs: seq<Token>, ys: seq<Token>, lo: int, mid: int, hi: int)
    requires Within(xs, lo, mid) && Within(ys, mid, hi) && lo <= mid <= hi
    ensures Within(xs + ys, lo, hi)
  {
  }

  /** A value's first token spans the value; the tokens below it start inside that span. */
  lemma {:induction false} SpanOfValue(build: Build, v: Value, at: nat, base: nat, super: int)
    ensures var b := Tokens(build, v, at, base, super);
            && b[0].end == Tokens(build, v, at, 0, -1)[0].end <= at + |Text(v)|
            && Within(b, at, at + |Text(v)|)
            && Within(b[1..], at, b[0].end - 1)
    decreases v, 1
  {
    hide ItemTokens, MemberTokens, ItemsText, MembersText;
    match v
    case Prim(_) =>
    case Str(_) =>
    case Arr(pad, items) =>
      SpanOfItems(build, items, at + 1 + |pad|, base + 1, base);
      assert Tokens(build, v, at, base, super)[1..] == ItemTokens(build, items, at + 1 + |pad|, base + 1, base);
    case Obj(pad, ms) =>
      SpanOfMembers(build, ms, at + 1 + |pad|, base + 1, base);
      assert Tokens(build, v, at, base, super)[1..] == MemberTokens(build, ms, at + 1 + |pad|, base + 1, base);
  }

  lemma UnfoldItems(build: Build, items: Items, at: nat, base: nat, super: int)
    requires items.Item?
    ensures var first := Tokens(build, items.v, at + |items.pre|, base, super);
            var next := at + |items.pre| + |Text(items.v)| + |items.post| + 1;
            ItemTokens(build, items, at, base, super) == first + ItemTokens(build, items.rest, next, base + |first|, super)
    ensures |ItemsText(items)| == |items.pre| + |Text(items.v)| + |items.post|
                                  + (if items.rest.NoItems? then 0 else 1 + |ItemsText(items.rest)|)
    ensures items.rest.NoItems? ==>
              forall next, n :: ItemTokens(build, items.rest, next, n, super) == []
  {
    hide Tokens, Text;
  }

  lemma UnfoldMembers(build: Build, ms: Members, at: nat, base: nat, super: int)
    requires ms.Member?
    ensures var first := Tokens(build, ms.v, ValueAt(ms, at), base + 1, base);
            var keyAt := at + |ms.pre| + 1;
            var k := Token(String, keyAt, keyAt + |ms.key|, 1, Link(build, super));
            MemberTokens(build, ms, at, base, super)
            == [k] + first + MemberTokens(build, ms.rest, RestAt(ms, at), base + 1 + |first|, super)
    ensures |MembersText(ms)| == |KeyText(ms)| + |Text(ms.v)| + |ms.post|
                                 + (if ms.rest.NoMembers? then 0 else 1 + |MembersText(ms.rest)|)
    ensures ms.rest.NoMembers? ==>
              forall next, n :: MemberTokens(build, ms.rest, next, n, super) == []
  {
    hide Tokens, Text, KeyText;
  }

  lemma {:induction false} SpanOfItems(build: Build, items: Items, at: nat, base: nat, super: int)
    ensures Within(ItemTokens(build, items, at, base, super), at, at + |ItemsText(items)|)
    decreases items, 0
  {
    hide Within, Text, Tokens, ItemTokens, ItemsText;
    if items.NoItems? {
      NothingWithin(build, at, base, super);
    } else {
      UnfoldItems(build, items, at, base, super);
      var Item(pre, v, post, rest) := items;
      SpanOfValue(build, v, at + |pre|, base, super);
      var first := Tokens(build, v, at + |pre|, base, super);
      var mid := at + |pre| + |Text(v)|;
      if rest.Item? {
        var next := mid + |post| + 1;
        SpanOfItems(build, rest, next, base + |first|, super);
        Widen(first, at + |pre|, mid, at, next);
        WithinConcat(first, ItemTokens(build, rest, next, base + |first|, super), at, next, next + |ItemsText(rest)|);
      } else {
        Widen(first, at + |pre|, mid, at, at + |ItemsText(items)|);
        assert first + [] == first;
      }
    }
  }

  lemma {:induction false} SpanOfMembers(build: Build, ms: Members, at: nat, base: nat, super: int)
    ensures Within(MemberTokens(build, ms, at, base, super), at, at + |MembersText(ms)|)
    decreases ms, 0
  {
    hide Within, Text, Tokens, KeyText, MemberTokens, MembersText;
    if ms.NoMembers? {
      NothingWithin(build, at, base, super);
    } else {
      UnfoldMembers(build, ms, at, base, super);
      var vAt := ValueAt(ms, at);
      var mid := vAt + |Text(ms.v)|;
      var first := Tokens(build, ms.v, vAt, base + 1, base);
      SpanOfValue(build, ms.v, vAt, base + 1, base);
      var keyAt := at + |ms.pre| + 1;
      var k := Token(String, keyAt, keyAt + |ms.key|, 1, Link(build, super));
      KeyWithin(ms, at, k);
      WithinConcat([k], first, at, vAt, mid);
      if ms.rest.Member? {
        var next := RestAt(ms, at);
        var rest := MemberTokens(build, ms.rest, next, base + 1 + |first|, super);
        SpanOfMembers(build, ms.rest, next, base + 1 + |first|, super);
        Widen([k] + first, at, mid, at, next);
        WithinConcat([k] + first, rest, at, next, next + |MembersText(ms.rest)|);
      } else {
        Widen([k] + first, at, mid, at, at + |MembersText(ms)|);
        assert [k] + first + [] == [k] + first;
      }
    }
  }

  lemma NothingWithin(build: Build, at: nat, base: nat, super: int)
    ensures Within(ItemTokens(build, NoItems, at, base, super), at, at + |ItemsText(NoItems)|)
    ensures Within(MemberTokens(build, NoMembers, at, base, super), at, at + |MembersText(NoMembers)|)
  {
  }

  lemma KeyWithin(ms: Members, at: nat, t: Token)
    requires ms.Member? && t.start == at + |ms.pre| + 1
    ensures Within([t], at, ValueAt(ms, at))
  {
  }

  lemma Widen(block: seq<Token>, lo: int, hi: int, lo': int, hi': int)
    requires Within(block, lo, hi) && lo' <= lo && hi <= hi'
    ensures Within(block, lo', hi')
  {
  }

  /** Slots i.. of the array hold the given tokens. */
  ghost predicate Holds(toks: seq<Token>, i: nat, block: seq<Token>) {
    i + |block| <= |toks| && toks[i..i + |block|] == block
  }

  lemma HoldsConcat(toks: seq<Token>, i: nat, xs: seq<Token>, ys: seq<Token>)
    requires Holds(toks, i, xs + ys)
    ensures Holds(toks, i, xs) && Holds(toks, i + |xs|, ys)
  {
    var b := toks[i..i + |xs + ys|];
    assert toks[i..i + |xs|] == b[..|xs|];
    assert toks[i + |xs|..i + |xs| + |ys|] == b[|xs|..];
  }

  lemma KeySpells(js: string, at: nat, ms: Members, t: Token, key: string)
    requires ms.Member? && At(js, at, KeyText(ms))
    requires t.typ == String && t.start == at + |ms.pre| + 1 && t.end == t.start + |ms.key|
    ensures Spells(js, t, key) == (ms.key == key)
  {
    hide KeyText, Quoted;
    SplitKey(js, at, ms);
    SplitQuoted(js, at + |ms.pre|, ms.key);
    assert js[t.start..t.end] == ms.key;
  }

  /** Past the value, the walk stops at the next key, or at the first slot after the tree that starts late enough. */
  lemma SkipValue(build: Build, toks: seq<Token>, ms: Members, at: nat, i: nat)
    requires ms.Member? && Holds(toks, i + 1, Tokens(build, ms.v, ValueAt(ms, at), i + 1, i))
    ensures i + 1 < |toks|
    ensures Skip(toks, i + 2, toks[i + 1].end) == Skip(toks, i + Width(build, ms, at, i), toks[i + 1].end)
    ensures toks[i + 1].end == Tokens(build, ms.v, ValueAt(ms, at), 0, -1)[0].end <= RestAt(ms, at) - 1
  {
    hide Tokens, Text, KeyText;
    var b := Tokens(build, ms.v, ValueAt(ms, at), i + 1, i);
    SpanOfValue(build, ms.v, ValueAt(ms, at), i + 1, i);
    HeldAt(toks, i + 1, b);
    SkipOver(toks, i + 2, i + 1 + |b|, toks[i + 1].end);
  }

  lemma HeldAt(toks: seq<Token>, i: nat, b: seq<Token>)
    requires b != [] && Holds(toks, i, b)
    ensures toks[i] == b[0] && forall k :: i + 1 <= k < i + |b| ==> toks[k] == b[1..][k - i - 1]
  {
    var t := toks[i..i + |b|];
    assert t[0] == toks[i];
    forall k | i + 1 <= k < i + |b| ensures toks[k] == b[1..][k - i - 1] { assert t[k - i] == toks[k]; }
  }

  lemma {:induction false} SkipOver(toks: seq<Token>, i: nat, j: nat, end: int)
    requires i <= j <= |toks| && forall k :: i <= k < j ==> toks[k].start < end
    ensures Skip(toks, i, end) == Skip(toks, j, end)
    decreases j - i
  {
    if i < j { SkipOver(toks, i + 1, j, end); }
  }

  /** The slots a member and its successors occupy. */
  lemma MemberSlots(build: Build, toks: seq<Token>, ms: Members, at: nat, i: nat, super: int)
    requires ms.Member? && Holds(toks, i, MemberTokens(build, ms, at, i, super))
    ensures var keyAt := at + |ms.pre| + 1;
            var j := i + Width(build, ms, at, i);
            && i < |toks| && toks[i] == Token(String, keyAt, keyAt + |ms.key|, 1, Link(build, super))
            && Holds(toks, i + 1, Tokens(build, ms.v, ValueAt(ms, at), i + 1, i))
            && Holds(toks, j, MemberTokens(build, ms.rest, RestAt(ms, at), j, super))
            && i + |MemberTokens(build, ms, at, i, super)| == j + |MemberTokens(build, ms.rest, RestAt(ms, at), j, super)|
            && (ms.rest.Member? ==> j < |toks| && toks[j].start >= RestAt(ms, at))
  {
    hide Text, KeyText, Tokens, Holds, MemberTokens;
    UnfoldMembers(build, ms, at, i, super);
    var first := Tokens(build, ms.v, ValueAt(ms, at), i + 1, i);
    var keyAt := at + |ms.pre| + 1;
    var k := Token(String, keyAt, keyAt + |ms.key|, 1, Link(build, super));
    var rest := MemberTokens(build, ms.rest, RestAt(ms, at), i + 1 + |first|, super);
    HoldsConcat(toks, i, [k] + first, rest);
    HoldsConcat(toks, i, [k], first);
    HeldFirst(toks, i, [k]);
    if ms.rest.Member? {
      UnfoldMembers(build, ms.rest, RestAt(ms, at), i + 1 + |first|, super);
      HeldFirst(toks, i + 1 + |first|, rest);
    }
  }

  /** One turn of the search loop. */
  lemma FindTurn(build: Build, js: string, key: string, toks: seq<Token>, ms: Members, at: nat, i: nat, super: int)
    requires ms.Member? && At(js, at, KeyText(ms))
    requires Holds(toks, i, MemberTokens(build, ms, at, i, super))
    ensures var r := FindFrom(js, key, toks, i, MemberCount(ms));
            var j := i + Width(build, ms, at, i);
            r == if ms.key == key then Found(i + 1)
                 else if ms.rest.Member? then FindFrom(js, key, toks, j, MemberCount(ms.rest))
                 else if Skip(toks, j, LastEnd(build, ms, at)) < |toks| then Absent
                 else Overrun
  {
    hide Text, KeyText, Tokens, At, Spells, Skip, Holds, FindFrom, MemberTokens;
    var j := i + Width(build, ms, at, i);
    MemberSlots(build, toks, ms, at, i, super);
    KeySpells(js, at, ms, toks[i], key);
    SkipValue(build, toks, ms, at, i);
    if ms.key == key {
      FindHit(js, key, toks, i, MemberCount(ms));
    } else if ms.rest.Member? {
      SkipStops(toks, j, toks[i + 1].end);
      FindMiss(js, key, toks, i, MemberCount(ms), j);
    } else {
      FindLast(js, key, toks, i, j);
    }
  }

  /** What the search from key token i should give, the tokens of the object ending at slot `after`. */
  ghost predicate Answers(build: Build, toks: seq<Token>, ms: Members, key: string, at: nat, i: nat, after: nat, r: Lookup) {
    match MemberIndex(build, ms, key, at, i)
    case Some(k) => r == Found(k)
    case None =>
      r == if ms.NoMembers? || Skip(toks, after, LastEnd(build, ms, at)) < |toks| then Absent else Overrun
  }

  lemma AnswersCons(build: Build, toks: seq<Token>, ms: Members, key: string, at: nat, i: nat, after: nat, r: Lookup)
    requires ms.Member?
    requires
      var j := i + Width(build, ms, at, i);
      if ms.key == key then r == Found(i + 1)
      else if ms.rest.Member? then Answers(build, toks, ms.rest, key, RestAt(ms, at), j, after, r)
      else after == j && r == if Skip(toks, j, LastEnd(build, ms, at)) < |toks| then Absent else Overrun
    ensures Answers(build, toks, ms, key, at, i, after, r)
  {
    hide Skip, KeyText, Text, Tokens, Width, RestAt;
    assert MemberIndex(build, NoMembers, key, RestAt(ms, at), i + Width(build, ms, at, i)) == None;
  }

  lemma {:induction false} FindInMembers(build: Build, js: string, key: string, toks: seq<Token>, ms: Members, at: nat, i: nat, super: int)
    requires LegalMembers(ms) && At(js, at, MembersText(ms)) && Delimited(js, at + |MembersText(ms)|)
    requires Holds(toks, i, MemberTokens(build, ms, at, i, super))
    ensures Answers(build, toks, ms, key, at, i, i + |MemberTokens(build, ms, at, i, super)|,
                    FindFrom(js, key, toks, i, MemberCount(ms)))
    decreases ms
  {
    hide Text, KeyText, Tokens, At, Skip, Holds, FindFrom, Delimited, MembersText, MemberTokens, Answers, Width, RestAt;
    if ms.NoMembers? {
      AnswersNone(build, js, key, toks, at, i, super);
    } else {
      var j := i + Width(build, ms, at, i);
      SplitMember(js, at, ms);
      MemberSlots(build, toks, ms, at, i, super);
      FindTurn(build, js, key, toks, ms, at, i, super);
      if ms.rest.Member? {
        NextMember(js, ms, at);
        FindInMembers(build, js, key, toks, ms.rest, RestAt(ms, at), j, super);
      } else {
        UnfoldMembers(build, ms, at, i, super);
      }
      AnswersCons(build, toks, ms, key, at, i, i + |MemberTokens(build, ms, at, i, super)|,
                  FindFrom(js, key, toks, i, MemberCount(ms)));
    }
  }

  lemma AnswersNone(build: Build, js: string, key: string, toks: seq<Token>, at: nat, i: nat, super: int)
    ensures MemberTokens(build, NoMembers, at, i, super) == []
    ensures Answers(build, toks, NoMembers, key, at, i, i, FindFrom(js, key, toks, i, 0))
  {
  }

  lemma NextMember(js: string, ms: Members, at: nat)
    requires ms.Member? && ms.rest.Member? && LegalMembers(ms)
    requires At(js, at, MembersText(ms)) && Delimited(js, at + |MembersText(ms)|)
    ensures At(js, RestAt(ms, at), MembersText(ms.rest)) && Delimited(js, RestAt(ms, at) + |MembersText(ms.rest)|)
  {
    hide At, MembersText, Text, KeyText, Delimited;
    SplitMember(js, at, ms);
  }

  lemma HeldFirst(toks: seq<Token>, i: nat, b: seq<Token>)
    requires b != [] && Holds(toks, i, b)
    ensures i < |toks| && toks[i] == b[0]
  {
    assert toks[i..i + |b|][0] == toks[i];
  }

  lemma FindHit(js: string, key: string, toks: seq<Token>, i: nat, n: nat)
    requires n > 0 && i < |toks| && Spells(js, toks[i], key)
    ensures FindFrom(js, key, toks, i, n) == Found(i + 1)
  {
  }

  lemma FindMiss(js: string, key: string, toks: seq<Token>, i: nat, n: nat, j: nat)
    requires n > 0 && i + 1 < |toks| && !Spells(js, toks[i], key) && Skip(toks, i + 2, toks[i + 1].end) == j < |toks|
    ensures FindFrom(js, key, toks, i, n) == FindFrom(js, key, toks, j, n - 1)
  {
  }

  lemma FindLast(js: string, key: string, toks: seq<Token>, i: nat, j: nat)
    requires i + 1 < |toks| && !Spells(js, toks[i], key)
    requires Skip(toks, i + 2, toks[i + 1].end) == Skip(toks, j, toks[i + 1].end)
    ensures FindFrom(js, key, toks, i, 1) == if Skip(toks, j, toks[i + 1].end) < |toks| then Absent else Overrun
  {
  }

  lemma SkipStops(toks: seq<Token>, j: nat, end: int)
    requires j < |toks| && toks[j].start >= end
    ensures Skip(toks, j, end) == j
  {
  }

  /** The value of the first member with a given key: what a lookup in the tree itself would give. */
  function ValueOf(ms: Members, key: string): Option<Value> {
    if ms.NoMembers? then None else if ms.key == key then Some(ms.v) else ValueOf(ms.rest, key)
  }

  function TypeOf(v: Value): TokenType {
    match v
    case Prim(_) => Primitive
    case Str(_) => String
    case Arr(_, _) => Array
    case Obj(_, _) => Object
  }

  /** The text of a value as tokens span it: strings without their quotes. */
  function Bare(v: Value): string { if v.Str? then v.body else Text(v) }

  ghost predicate Shows(js: string, toks: seq<Token>, i: nat, v: Value) {
    && i < |toks| && toks[i].typ == TypeOf(v) && 0 <= toks[i].start <= toks[i].end <= |js|
    && js[toks[i].start..toks[i].end] == Bare(v)
  }

  lemma SpanShows(build: Build, js: string, toks: seq<Token>, i: nat, v: Value, at: nat, base: nat, super: int)
    requires At(js, at, Text(v)) && Holds(toks, i, Tokens(build, v, at, base, super))
    ensures Shows(js, toks, i, v)
  {
    hide ItemTokens, MemberTokens, ItemsText, MembersText;
    HeldFirst(toks, i, Tokens(build, v, at, base, super));
    if v.Str? {
      SplitQuoted(js, at, v.body);
      assert js[at + 1..at + 1 + |v.body|] == v.body;
    } else {
      assert js[at..at + |Text(v)|] == Text(v);
    }
  }

  lemma {:induction false} IndexShows(build: Build, js: string, key: string, toks: seq<Token>, ms: Members, at: nat, i: nat, super: int)
    requires LegalMembers(ms) && At(js, at, MembersText(ms)) && Delimited(js, at + |MembersText(ms)|)
    requires Holds(toks, i, MemberTokens(build, ms, at, i, super))
    ensures match ValueOf(ms, key)
            case None => MemberIndex(build, ms, key, at, i) == None
            case Some(v) => MemberIndex(build, ms, key, at, i).Some? && Shows(js, toks, MemberIndex(build, ms, key, at, i).value, v)
    decreases ms
  {
    hide Text, KeyText, Tokens, At, Holds, Delimited, MembersText, MemberTokens, Width, RestAt, Shows;
    if ms.Member? {
      SplitMember(js, at, ms);
      MemberSlots(build, toks, ms, at, i, super);
      if ms.key == key {
        SpanShows(build, js, toks, i + 1, ms.v, ValueAt(ms, at), i + 1, i);
      } else if ms.rest.Member? {
        NextMember(js, ms, at);
        IndexShows(build, js, key, toks, ms.rest, RestAt(ms, at), i + Width(build, ms, at, i), super);
      } else {
        assert ValueOf(NoMembers, key) == None;
        assert MemberIndex(build, NoMembers, key, RestAt(ms, at), i + Width(build, ms, at, i)) == None;
      }
    }
  }

  /** findToken on an object of a parsed document.  It returns the value of the first member with that key, as
      the tree has it, and never looks inside a value.  When there is no such member it returns NULL if the
      object is empty or some slot after the object's tokens starts at or past the end of the last value;
      otherwise it runs off the array. */
  lemma FindTokenInObject(build: Build, js: string, key: string, v: Value, at: nat, base: nat, super: int, toks: seq<Token>)
    requires v.Obj? && Legal(v) && At(js, at, Text(v))
    requires Holds(toks, base, Tokens(build, v, at, base, super))
    ensures base < |toks|
    ensures var ms := v.members;
            var mAt := at + 1 + |v.pad|;
            var after := base + |Tokens(build, v, at, base, super)|;
            var r := FindToken(js, key, toks, base);
            match ValueOf(ms, key)
            case Some(u) => r.Found? && Shows(js, toks, r.index, u)
            case None =>
              && (r == Absent || r == Overrun)
              && (r == Absent <==> ms.NoMembers? || exists j :: after <= j < |toks| && toks[j].start >= LastEnd(build, ms, mAt))
  {
    hide At, MembersText, MemberTokens, Holds, FindFrom, MemberIndex, LastEnd, Delimited, Shows, ValueOf;
    var ms := v.members;
    var mAt := at + 1 + |v.pad|;
    var root := Token(Object, at, at + |Text(v)|, MemberCount(ms), Link(build, super));
    var block := MemberTokens(build, ms, mAt, base + 1, base);
    SplitObject(js, at, v);
    HoldsConcat(toks, base, [root], block);
    HeldFirst(toks, base, [root]);
    AtFirst(js, mAt + |MembersText(ms)|, "}");
    FindInMembers(build, js, key, toks, ms, mAt, base + 1, base);
    IndexShows(build, js, key, toks, ms, mAt, base + 1, base);
    if ms.NoMembers? { FindNone(js, key, toks, base + 1); }
  }

  lemma AtFirst(js: string, p: nat, t: string)
    requires t == "}" && At(js, p, t)
    ensures Delimited(js, p)
  {
    assert js[p] == t[0];
  }

  lemma FindNone(js: string, key: string, toks: seq<Token>, i: nat)
    ensures FindFrom(js, key, toks, i, 0) == Absent
  {
  }

  /** {"a":1}, in an array of just its three tokens: looking up "b" runs off the array. */
  lemma AbsentKeyOverruns(build: Build)
    ensures var js := "{\"a\":1}";
            var r := Parse(build, js, Slots(3), Start);
            r.code == |r.s.toks| == 3 && FindToken(js, "b", r.s.toks, 0) == Overrun
  {
    var js := "{\"a\":1}";
    var v := Obj("", Member("", "a", "", "", Prim("1"), "", NoMembers));
    OneMember(build);
    ParseDocument(build, js, "", v, "", 3);
    FindTokenInObject(build, js, "b", v, 0, 0, -1, Tokens(build, v, 0, 0, -1));
  }

  lemma OneMember(build: Build)
    ensures var v := Obj("", Member("", "a", "", "", Prim("1"), "", NoMembers));
            && Text(v) == "{\"a\":1}" && Legal(v) && |Tokens(build, v, 0, 0, -1)| == 3
  {
  }
}
