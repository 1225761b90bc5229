/** JSON texts (RFC 8259) as trees that keep their white space, with the characters that each part may be spelled with. */
module JsonGrammar {

  /** Strings and primitives are kept as they are spelled; `pad` is the white space after an opening bracket. */
  datatype Value =
    | Prim(text: string)
    | Str(body: string)
    | Arr(pad: string, items: Items)
    | Obj(pad: string, members: Members)

  datatype Items = NoItems | Item(pre: string, v: Value, post: string, rest: Items)

  datatype Members =
    | NoMembers
    | Member(pre: string, key: string, mid: string, gap: string, v: Value, post: string, rest: Members)

  // ---------------------------------------------------------------- printing

  function Quoted(body: string): string { "\"" + body + "\"" }

  function Text(v: Value): (t: string)
    ensures |t| > 0 || v.Prim?
  {
    match v
    case Prim(text) => text
    case Str(body) => Quoted(body)
    case Arr(pad, items) => "[" + pad + ItemsText(items) + "]"
    case Obj(pad, members) => "{" + pad + MembersText(members) + "}"
  }

  function ItemsText(items: Items): string {
    match items
    case NoItems => ""
    case Item(pre, v, post, rest) =>
      pre + Text(v) + post + (if rest.NoItems? then "" else "," + ItemsText(rest))
  }

  function KeyText(m: Members): string
    requires m.Member?
  {
    m.pre + Quoted(m.key) + m.mid + ":" + m.gap
  }

  function MembersText(members: Members): string {
    match members
    case NoMembers => ""
    case Member(_, _, _, _, v, post, rest) =>
      KeyText(members) + Text(v) + post + (if rest.NoMembers? then "" else "," + MembersText(rest))
  }

  // ---------------------------------------------------------------- legal spellings

  /** Section 2: space, tab, line feed and carriage return. */
  predicate White(c: char) { c == ' ' || c == '\t' || c == '\n' || c == '\r' }

  predicate Blanks(s: string) { forall i :: 0 <= i < |s| ==> White(s[i]) }

  /** A printable character other than the ones that stand between values. */
  predicate PrimitiveChar(c: char) { '!' <= c <= '~' && c != ',' && c != ':' && c != ']' && c != '}' }

  /** A bare word.  The numbers of section 6 and the names of section 3 are such words. */
  predicate PrimitiveText(s: string) {
    && s != ""
    && s[0] != '{' && s[0] != '[' && s[0] != '\"'
    && forall i :: 0 <= i < |s| ==> PrimitiveChar(s[i])
  }

  /** Section 7: what may follow a backslash, other than u and four hex digits. */
  predicate EscapeLetter(c: char) {
    c == '\"' || c == '\\' || c == '/' || c == 'b' || c == 'f' || c == 'n' || c == 'r' || c == 't'
  }

  predicate HexDigit(c: char) { '0' <= c <= '9' || 'a' <= c <= 'f' || 'A' <= c <= 'F' }

  /** Section 7, with any character but NUL allowed unescaped besides the quote and the backslash. */
  predicate StringBody(s: string) {
    || s == ""
    || (s[0] != '\"' && s[0] != '\\' && s[0] != '\0' && StringBody(s[1..]))
    || (s[0] == '\\' && |s| >= 2 && EscapeLetter(s[1]) && StringBody(s[2..]))
    || (s[0] == '\\' && |s| >= 6 && s[1] == 'u' && (forall i :: 2 <= i < 6 ==> HexDigit(s[i])) && StringBody(s[6..]))
  }

  /** A text in a buffer ends with the buffer or at a NUL. */
  predicate TextEnds(js: string, i: nat) { i >= |js| || js[i] == '\0' }

  predicate Legal(v: Value) {
    match v
    case Prim(text) => PrimitiveText(text)
    case Str(body) => StringBody(body)
    case Arr(pad, items) => Blanks(pad) && LegalItems(items)
    case Obj(pad, members) => Blanks(pad) && LegalMembers(members)
  }

  predicate LegalItems(items: Items) {
    items.Item? ==> Blanks(items.pre) && Legal(items.v) && Blanks(items.post) && LegalItems(items.rest)
  }

  predicate LegalMembers(ms: Members) {
    ms.Member? ==>
      && Blanks(ms.pre) && StringBody(ms.key) && Blanks(ms.mid) && Blanks(ms.gap)
      && Legal(ms.v) && Blanks(ms.post) && LegalMembers(ms.rest)
  }

  /** RFC 8259 section 6: [ minus ] int [ frac ] [ exp ]. */
  ghost predicate RfcNumber(s: string) {
    exists minus: string, int': string, frac: string, exp: string {:trigger minus + int' + frac + exp} ::
      && s == minus + int' + frac + exp
      && (minus == "" || minus == "-")
      && Digits(int') && (int'[0] == '0' ==> |int'| == 1)
      && FracPart(frac) && ExpPart(exp)
  }

  predicate Digits(s: string) { s != "" && forall i :: 0 <= i < |s| ==> '0' <= s[i] <= '9' }

  predicate FracPart(s: string) { s == "" || (s[0] == '.' && Digits(s[1..])) }

  predicate ExpPart(s: string) {
    || s == ""
    || ((s[0] == 'e' || s[0] == 'E')
        && (Digits(s[1..]) || (|s| > 1 && (s[1] == '+' || s[1] == '-') && Digits(s[2..]))))
  }

  // ---------------------------------------------------------------- numbers and names are bare words

  predicate NumberChars(s: string) {
    forall i :: 0 <= i < |s| ==> s[i] == '+' || s[i] == '-' || s[i] == '.' || s[i] == 'e' || s[i] == 'E' || '0' <= s[i] <= '9'
  }

  lemma FractionChars(s: string)
    requires FracPart(s) || ExpPart(s)
    ensures NumberChars(s)
  {
    forall i | 0 <= i < |s|
      ensures s[i] == '+' || s[i] == '-' || s[i] == '.' || s[i] == 'e' || s[i] == 'E' || '0' <= s[i] <= '9'
    {
      if i >= 1 { assert s[i] == s[1..][i - 1]; }
      if i >= 2 { assert s[i] == s[2..][i - 2]; }
    }
  }

  lemma NumberCharsConcat(a: string, b: string)
    requires NumberChars(a) && NumberChars(b)
    ensures NumberChars(a + b)
  {
  }

  lemma NumberCharsArePrimitive(s: string)
    requires s != "" && NumberChars(s)
    ensures PrimitiveText(s)
  {
    assert forall i :: 0 <= i < |s| ==> PrimitiveChar(s[i]);
  }

  /** Numbers and the three literal names are primitives. */
  lemma RfcPrimitives(s: string)
    requires RfcNumber(s) || s == "true" || s == "false" || s == "null"
    ensures PrimitiveText(s)
  {
    if RfcNumber(s) {
      var minus: string, int': string, frac: string, exp: string {:trigger minus + int' + frac + exp} :|
        && s == minus + int' + frac + exp
        && (minus == "" || minus == "-") && Digits(int') && FracPart(frac) && ExpPart(exp);
      FractionChars(frac);
      FractionChars(exp);
      NumberCharsConcat(minus, int');
      NumberCharsConcat(minus + int', frac);
      NumberCharsConcat(minus + int' + frac, exp);
      NumberCharsArePrimitive(s);
    }
  }
}
