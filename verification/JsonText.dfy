/** The token list that each JSON tree should give. */
module JsonText {
  import opened Basics
  import opened Jsmn
  import opened JsonGrammar

  // ---------------------------------------------------------------- the tokens a tree should give

  function ItemCount(items: Items): nat { if items.NoItems? then 0 else 1 + ItemCount(items.rest) }

  function MemberCount(ms: Members): nat { if ms.NoMembers? then 0 else 1 + MemberCount(ms.rest) }

  function Link(build: Build, super: int): int { if build.ParentLinks? then super else -1 }

  /** Tokens, in pre-order, of a value printed at position `at`, the first being number `base`, under `super`:
      an object counts its members, an array its elements, a key its value. */
  function Tokens(build: Build, v: Value, at: nat, base: nat, super: int): (r: seq<Token>)
    ensures |r| >= 1
  {
    match v
    case Prim(text) => [Token(Primitive, at, at + |text|, 0, Link(build, super))]
    case Str(body) => [Token(String, at + 1, at + 1 + |body|, 0, Link(build, super))]
    case Arr(pad, items) =>
      [Token(Array, at, at + |Text(v)|, ItemCount(items), Link(build, super))]
      + ItemTokens(build, items, at + 1 + |pad|, base + 1, base)
    case Obj(pad, members) =>
      [Token(Object, at, at + |Text(v)|, MemberCount(members), Link(build, super))]
      + MemberTokens(build, members, at + 1 + |pad|, base + 1, base)
  }

  function ItemTokens(build: Build, items: Items, at: nat, base: nat, super: int): seq<Token> {
    match items
    case NoItems => []
    case Item(pre, v, post, rest) =>
      var first := Tokens(build, v, at + |pre|, base, super);
      first + ItemTokens(build, rest, at + |pre| + |Text(v)| + |post| + 1, base + |first|, super)
  }

  function MemberTokens(build: Build, ms: Members, at: nat, base: nat, super: int): seq<Token> {
    match ms
    case NoMembers => []
    case Member(pre, key, mid, gap, v, post, rest) =>
      var keyAt := at + |pre| + 1;
      var first := Tokens(build, v, at + |KeyText(ms)|, base + 1, base);
      [Token(String, keyAt, keyAt + |key|, 1, Link(build, super))] + first
      + MemberTokens(build, rest, at + |KeyText(ms)| + |Text(v)| + |post| + 1, base + 1 + |first|, super)
  }

  /** Every token of a tree is closed, and its parent is `super` or an earlier token of the same tree. */
  predicate Closed(block: seq<Token>) { forall i :: 0 <= i < |block| ==> block[i].start >= 0 && block[i].end >= 0 }

  predicate Chained(build: Build, block: seq<Token>, base: nat, super: int) {
    forall i :: 0 <= i < |block| ==>
      block[i].parent == Link(build, super) || (build.ParentLinks? && base <= block[i].parent < base + i)
  }

  lemma TokensClosed(build: Build, v: Value, at: nat, base: nat, super: int)
    ensures Closed(Tokens(build, v, at, base, super))
    ensures Chained(build, Tokens(build, v, at, base, super), base, super)
  {
    hide Text, ItemTokens, MemberTokens;
    match v
    case Prim(_) =>
    case Str(_) =>
    case Arr(pad, items) => ItemTokensClosed(build, items, at + 1 + |pad|, base + 1, base);
    case Obj(pad, members) => MemberTokensClosed(build, members, at + 1 + |pad|, base + 1, base);
  }

  lemma ItemTokensClosed(build: Build, items: Items, at: nat, base: nat, super: int)
    ensures Closed(ItemTokens(build, items, at, base, super))
    ensures Chained(build, ItemTokens(build, items, at, base, super), base, super)
  {
    if items.Item? {
      var Item(pre, v, post, rest) := items;
      TokensClosed(build, v, at + |pre|, base, super);
      var n := |Tokens(build, v, at + |pre|, base, super)|;
      ItemTokensClosed(build, rest, at + |pre| + |Text(v)| + |post| + 1, base + n, super);
    }
  }

  lemma MemberTokensClosed(build: Build, ms: Members, at: nat, base: nat, super: int)
    ensures Closed(MemberTokens(build, ms, at, base, super))
    ensures Chained(build, MemberTokens(build, ms, at, base, super), base, super)
  {
    if ms.Member? {
      TokensClosed(build, ms.v, at + |KeyText(ms)|, base + 1, base);
      var n := |Tokens(build, ms.v, at + |KeyText(ms)|, base + 1, base)|;
      MemberTokensClosed(build, ms.rest, at + |KeyText(ms)| + |Text(ms.v)| + |ms.post| + 1, base + 1 + n, super);
    }
  }
}
