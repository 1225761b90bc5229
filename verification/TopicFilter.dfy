/** Topic filter matching (aws_iot_mqtt_client_common_internal.c): a loop over characters, shown equal to a
    level-by-level rule, and compared with section 4.7 of MQTT 3.1.1. */
module TopicFilter {

  /** Position of the first '/' in s, or its length. */
  function LevelEnd(s: string): (k: nat)
    ensures k <= |s| && (k < |s| ==> s[k] == '/') && '/' !in s[..k]
  {
    if s == "" || s[0] == '/' then 0
    else
      var k := LevelEnd(s[1..]);
      assert s[..k + 1] == [s[0]] + s[1..][..k];
      k + 1
  }

  /** The loop over characters, on what is left of filter and name. */
  function Walk(filter: string, name: string): bool
    decreases |filter|
  {
    if filter == "" || name == "" then filter == "" && name == ""
    else if name[0] == '/' && filter[0] != '/' then false
    else if filter[0] == '+' then Walk(filter[1..], name[LevelEnd(name)..])
    else if filter[0] == '#' then Walk(filter[1..], "")
    else filter[0] == name[0] && Walk(filter[1..], name[1..])
  }

  lemma WalkOn(filter: string, name: string)
    ensures filter == "" || name == "" ==> Walk(filter, name) == (filter == "" && name == "")
    ensures filter != "" && name != "" ==>
              Walk(filter, name) ==
                if name[0] == '/' && filter[0] != '/' then false
                else if filter[0] == '+' then Walk(filter[1..], name[LevelEnd(name)..])
                else if filter[0] == '#' then Walk(filter[1..], "")
                else filter[0] == name[0] && Walk(filter[1..], name[1..])
  {
    hide LevelEnd;
  }

  /** The inner loop of the '+' case: the last character before the next separator or the end. */
  method LastOfLevel(name: string, from: nat) returns (curn: nat)
    requires from < |name| && name[from] != '/'
    ensures from <= curn < |name| && LevelEnd(name[from..]) == curn + 1 - from
  {
    curn := from;
    var nextpos := curn + 1;
    while nextpos < |name| && name[nextpos] != '/'
      invariant from <= curn < |name| && nextpos == curn + 1
      invariant '/' !in name[from..nextpos]
      decreases |name| - curn
    {
      curn := curn + 1;
      nextpos := curn + 1;
    }
    assert name[from..][..nextpos - from] == name[from..nextpos];
    LevelEndAt(name[from..], nextpos - from);
  }

  /** _aws_iot_mqtt_internal_is_topic_matched; the filter is what stands before its terminating NUL, the name the
      first topicNameLen characters. */
  method IsTopicMatched(filter: string, name: string) returns (matched: bool)
    ensures matched == Walk(filter, name)
  {
    hide Walk;
    var curf, curn := 0, 0;
    assert filter[0..] == filter && name[0..] == name;
    while curf < |filter| && curn < |name|
      invariant 0 <= curf <= |filter| && 0 <= curn <= |name|
      invariant Walk(filter[curf..], name[curn..]) == Walk(filter, name)
      decreases |filter| - curf
    {
      WalkOn(filter[curf..], name[curn..]);
      if name[curn] == '/' && filter[curf] != '/' {
        break;
      }
      if filter[curf] != '+' && filter[curf] != '#' && filter[curf] != name[curn] {
        break;
      }
      ghost var here := curn;
      assert filter[curf..][0] == filter[curf] && name[curn..][0] == name[curn];
      if filter[curf] == '+' {
        curn := LastOfLevel(name, curn);
        assert name[here..][curn + 1 - here..] == name[curn + 1..];
      } else if filter[curf] == '#' {
        curn := |name| - 1;
      }
      assert filter[curf..][1..] == filter[curf + 1..];
      assert name[curn..][1..] == name[curn + 1..];
      curf := curf + 1;
      curn := curn + 1;
    }
    WalkOn(filter[curf..], name[curn..]);
    return curn == |name| && curf == |filter|;
  }

  lemma {:induction false} LevelEndAt(s: string, k: nat)
    requires k <= |s| && (k < |s| ==> s[k] == '/') && '/' !in s[..k]
    ensures LevelEnd(s) == k
  {
  }

  // ---------------------------------------------------------------- levels

  /** A topic's levels: the strings between its slashes. */
  function Levels(s: string): (r: seq<string>)
    ensures |r| >= 1
    decreases |s|
  {
    var k := LevelEnd(s);
    if k == |s| then [s] else [s[..k]] + Levels(s[k + 1..])
  }

  predicate Plain(level: string) { '+' !in level && '#' !in level }

  /** A filter's wildcards fill whole levels, and '#' only the last one. */
  predicate WellFormed(levels: seq<string>) {
    forall i :: 0 <= i < |levels| ==>
      Plain(levels[i]) || levels[i] == "+" || (levels[i] == "#" && i == |levels| - 1)
  }

  /** The rule by levels: literals are equal, '+' takes one level that is not empty, and a final '#' takes one or
      more levels of which the first is not empty. */
  predicate Matches(filter: seq<string>, name: seq<string>) {
    if filter == [] then name == []
    else if name == [] then false
    else if filter == ["#"] then name[0] != ""
    else (if filter[0] == "+" then name[0] != "" else filter[0] == name[0]) && Matches(filter[1..], name[1..])
  }

  predicate Boundary(s: string) { s == "" || s[0] == '/' }

  lemma {:induction false} WalkLiteral(l: string, ftail: string, m: string, ntail: string)
    requires '/' !in l && Plain(l) && '/' !in m && Boundary(ftail) && Boundary(ntail)
    ensures Walk(l + ftail, m + ntail) == (l == m && Walk(ftail, ntail))
    decreases |l|
  {
    if l == "" {
      assert l + ftail == ftail;
      if m == "" { assert m + ntail == ntail; } else { assert (m + ntail)[0] == m[0] && m[0] in m; }
    } else if m == "" {
      assert m + ntail == ntail && (l + ftail)[0] == l[0] && l[0] in l;
    } else {
      assert (l + ftail)[0] == l[0] && l[0] in l && (m + ntail)[0] == m[0] && m[0] in m;
      assert (l + ftail)[1..] == l[1..] + ftail && (m + ntail)[1..] == m[1..] + ntail;
      WalkLiteral(l[1..], ftail, m[1..], ntail);
      assert l == [l[0]] + l[1..] && m == [m[0]] + m[1..];
    }
  }

  lemma WalkPlus(ftail: string, m: string, ntail: string)
    requires '/' !in m && Boundary(ntail)
    ensures Walk("+" + ftail, m + ntail) == (m != "" && Walk(ftail, ntail))
  {
    var f, n := "+" + ftail, m + ntail;
    assert f[0] == '+' && f[1..] == ftail;
    if m == "" {
      assert n == ntail;
    } else {
      assert n[0] == m[0] && m[0] in m;
      assert n[..|m|] == m;
      LevelEndAt(n, |m|);
      assert n[|m|..] == ntail;
    }
  }

  lemma WalkHash(m: string, ntail: string)
    requires '/' !in m && Boundary(ntail)
    ensures Walk("#", m + ntail) == (m != "")
  {
    var n := m + ntail;
    if m == "" { assert n == ntail; } else { assert n[0] == m[0] && m[0] in m; }
    assert "#"[1..] == "";
  }

  /** From a level boundary on, both sides must end, or go on together. */
  lemma WalkBoundary(ftail: string, ntail: string)
    requires Boundary(ftail) && Boundary(ntail)
    ensures Walk(ftail, ntail)
            == if ftail != "" && ntail != "" then Walk(ftail[1..], ntail[1..]) else ftail == "" && ntail == ""
  {
  }

  lemma LevelsSplit(s: string)
    ensures var k := LevelEnd(s);
            var tail := s[k..];
            && s == s[..k] + tail && Boundary(tail)
            && Levels(s) == [s[..k]] + (if tail == "" then [] else Levels(tail[1..]))
  {
    var k := LevelEnd(s);
    if k == |s| { assert s[..k] == s; } else { assert s[k..][1..] == s[k + 1..]; }
  }

  lemma WellFormedTail(levels: seq<string>)
    requires levels != [] && WellFormed(levels)
    ensures WellFormed(levels[1..])
    ensures levels[0] == "#" ==> levels == ["#"]
    ensures levels[0] != "#" && levels[0] != "+" ==> Plain(levels[0])
  {
    assert forall i :: 0 <= i < |levels[1..]| ==> levels[1..][i] == levels[i + 1];
    if levels[0] == "#" { assert '#' in levels[0]; }
  }

  /** For every well-formed filter and every name, the character loop decides the rule by levels. */
  lemma {:induction false} WalkIsMatches(filter: string, name: string)
    requires WellFormed(Levels(filter))
    ensures Walk(filter, name) == Matches(Levels(filter), Levels(name))
    decreases |filter|
  {
    hide Walk, WellFormed;
    LevelsSplit(filter);
    LevelsSplit(name);
    var fl, nl := Levels(filter), Levels(name);
    var l, ftail := filter[..LevelEnd(filter)], filter[LevelEnd(filter)..];
    var m, ntail := name[..LevelEnd(name)], name[LevelEnd(name)..];
    WellFormedTail(fl);
    WalkBoundary(ftail, ntail);
    MatchesStep(fl, nl);
    if l == "#" {
      assert ftail == "" && filter == "#";
      WalkHash(m, ntail);
    } else {
      if l == "+" { WalkPlus(ftail, m, ntail); } else { WalkLiteral(l, ftail, m, ntail); }
      if ftail != "" && ntail != "" {
        assert fl[1..] == Levels(ftail[1..]) && nl[1..] == Levels(ntail[1..]);
        WalkIsMatches(ftail[1..], ntail[1..]);
      }
    }
  }

  lemma MatchesStep(filter: seq<string>, name: seq<string>)
    requires filter != [] && name != []
    ensures filter == ["#"] ==> Matches(filter, name) == (name[0] != "")
    ensures filter != ["#"] ==>
              Matches(filter, name)
              == ((if filter[0] == "+" then name[0] != "" else filter[0] == name[0])
                  && (if filter[1..] == [] || name[1..] == [] then filter[1..] == name[1..] else Matches(filter[1..], name[1..])))
  {
  }

  // ---------------------------------------------------------------- the standard's rule

  /** Section 4.7.1: '+' takes any one level, '#' any number of levels, none included. */
  predicate StandardMatches(filter: seq<string>, name: seq<string>) {
    if filter == ["#"] then true
    else if filter == [] || name == [] then filter == name
    else (filter[0] == "+" || filter[0] == name[0]) && StandardMatches(filter[1..], name[1..])
  }

  /** The client never delivers more than the standard allows. */
  lemma {:induction false} NeverWider(filter: seq<string>, name: seq<string>)
    ensures Matches(filter, name) ==> StandardMatches(filter, name)
    decreases |filter|
  {
    if filter != [] && name != [] { NeverWider(filter[1..], name[1..]); }
  }

  /** A wildcard of the filter stands over an empty level of the name. */
  predicate WildOverEmpty(filter: seq<string>, name: seq<string>) {
    exists i :: 0 <= i < |filter| && i < |name| && (filter[i] == "+" || filter[i] == "#") && name[i] == ""
  }

  /** The filter is the parent level of a '#' and the name is that parent. */
  predicate ParentOfHash(filter: seq<string>, name: seq<string>) {
    |filter| == |name| + 1 && filter[|name|] == "#"
  }

  /** For every filter with '#' only last and every name, the client matches less than the standard in exactly two
      cases: a wildcard over an empty level, and '#' over its parent level. */
  lemma {:induction false} NarrowerExactly(filter: seq<string>, name: seq<string>)
    requires forall i :: 0 <= i < |filter| - 1 ==> filter[i] != "#"
    ensures Matches(filter, name)
            <==> StandardMatches(filter, name) && !WildOverEmpty(filter, name) && !ParentOfHash(filter, name)
    decreases |filter|
  {
    if filter != [] && name != [] && filter != ["#"] {
      WildOverEmptyStep(filter, name);
      assert forall i :: 0 <= i < |filter[1..]| ==> filter[1..][i] == filter[i + 1];
      NarrowerExactly(filter[1..], name[1..]);
    } else if filter == ["#"] && name != [] {
      assert WildOverEmpty(filter, name) <==> name[0] == "";
    }
  }

  lemma WildOverEmptyStep(filter: seq<string>, name: seq<string>)
    requires filter != [] && name != []
    ensures WildOverEmpty(filter, name)
            <==> ((filter[0] == "+" || filter[0] == "#") && name[0] == "") || WildOverEmpty(filter[1..], name[1..])
  {
    var f, n := filter[1..], name[1..];
    forall i | 0 <= i < |f| && i < |n|
      ensures f[i] == filter[i + 1] && n[i] == name[i + 1]
    {
    }
    if WildOverEmpty(filter, name) {
      var i :| 0 <= i < |filter| && i < |name| && (filter[i] == "+" || filter[i] == "#") && name[i] == "";
      if i > 0 { assert f[i - 1] == filter[i] && n[i - 1] == name[i]; }
    }
    if WildOverEmpty(f, n) {
      var i :| 0 <= i < |f| && i < |n| && (f[i] == "+" || f[i] == "#") && n[i] == "";
      assert filter[i + 1] == f[i] && name[i + 1] == n[i];
    }
  }

  /** The character loop, then, is the standard's rule but for those two cases. */
  lemma WalkExactly(filter: string, name: string)
    requires WellFormed(Levels(filter))
    ensures var f, n := Levels(filter), Levels(name);
            Walk(filter, name) <==> StandardMatches(f, n) && !WildOverEmpty(f, n) && !ParentOfHash(f, n)
  {
    hide Walk, Levels, Matches, StandardMatches, WildOverEmpty;
    var f := Levels(filter);
    WalkIsMatches(filter, name);
    assert !Plain("#") by { assert "#"[0] == '#'; }
    assert forall i :: 0 <= i < |f| - 1 ==> f[i] != "#";
    NarrowerExactly(f, Levels(name));
  }

  /** Both happen: "a/+" does not take "a/", and "a/#" takes neither "a/" nor "a", all of which the standard matches. */
  lemma NarrowerWitnesses()
    ensures StandardMatches(["a", "+"], ["a", ""]) && !Matches(["a", "+"], ["a", ""])
    ensures StandardMatches(["a", "#"], ["a", ""]) && !Matches(["a", "#"], ["a", ""])
    ensures StandardMatches(["a", "#"], ["a"]) && !Matches(["a", "#"], ["a"])
  {
    assert ["a", "+"][1..] == ["+"] && ["a", "#"][1..] == ["#"] && ["a", ""][1..] == [""] && ["a"][1..] == [];
    assert ["+"][1..] == [] && [""][1..] == [];
  }
}
