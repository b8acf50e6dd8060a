/** ASCII models of the Python string operations the recommenders use:
    str.lower, the `in` substring test, str.split (with and without a
    separator), str.strip, str.replace of one character, str.join and
    str.title. */
module Text {

  /** str.lower on one character, restricted to ASCII. */
  function LowerChar(c: char): char
  {
    if 'A' <= c <= 'Z' then (c as int + 32) as char else c
  }

  function Lower(s: string): string
  {
    seq(|s|, i requires 0 <= i < |s| => LowerChar(s[i]))
  }

  /** [s.lower() for s in skills] */
  function LowerAll(skills: seq<string>): (r: seq<string>)
    ensures |r| == |skills| && forall i :: 0 <= i < |r| ==> r[i] == Lower(skills[i])
  {
    seq(|skills|, i requires 0 <= i < |skills| => Lower(skills[i]))
  }

  /** The ASCII characters for which Python's str.isspace() holds. */
  const Whitespace: set<char> := set c: char | IsSpace(c)

  /** Tab, line feed, vertical tab, form feed, carriage return (9-13), the
      four information separators (28-31) and space (32). */
  predicate IsSpace(c: char)
  {
    '\t' <= c <= '\r' || 28 as char <= c <= ' '
  }

  /** Python's `needle in hay` on strings. */
  predicate Contains(hay: string, needle: string)
    decreases |hay|
  {
    needle <= hay || (hay != [] && Contains(hay[1..], needle))
  }

  lemma ContainsEmpty(hay: string)
    ensures Contains(hay, "")
  {
  }

  lemma ContainsSelf(s: string)
    ensures Contains(s, s)
  {
  }

  /** Every substring found at position k is contained. */
  lemma {:induction false} ContainsAt(pre: string, needle: string, post: string)
    ensures Contains(pre + needle + post, needle)
    decreases |pre|
  {
    if pre == [] {
      assert pre + needle + post == needle + post;
    } else {
      assert (pre + needle + post)[1..] == pre[1..] + needle + post;
      ContainsAt(pre[1..], needle, post);
    }
  }

  /** A contained needle splits the string around one of its occurrences. */
  lemma {:induction false} ContainsWitness(hay: string, needle: string) returns (pre: string, post: string)
    requires Contains(hay, needle)
    ensures hay == pre + needle + post
    decreases |hay|
  {
    if needle <= hay {
      pre, post := "", hay[|needle|..];
      assert hay == needle + hay[|needle|..];
    } else {
      var p, q := ContainsWitness(hay[1..], needle);
      pre, post := [hay[0]] + p, q;
      assert hay == [hay[0]] + hay[1..];
    }
  }

  lemma ContainsWithin(a: string, b: string, c: string, needle: string)
    requires Contains(b, needle)
    ensures Contains(a + b + c, needle)
  {
    var pre, post := ContainsWitness(b, needle);
    assert a + b + c == (a + pre) + needle + (post + c);
    ContainsAt(a + pre, needle, post + c);
  }

  /** Containment is transitive. */
  lemma ContainsTrans(a: string, b: string, c: string)
    requires Contains(a, b) && Contains(b, c)
    ensures Contains(a, c)
  {
    var p1, q1 := ContainsWitness(a, b);
    ContainsWithin(p1, b, q1, c);
  }

  /** sep.join(parts) contains every part. */
  lemma {:induction false} JoinContainsPart(sep: string, parts: seq<string>, i: nat)
    requires i < |parts|
    ensures Contains(JoinWith(sep, parts), parts[i])
    decreases |parts|
  {
    if |parts| == 1 {
      ContainsAt("", parts[0], "");
      assert "" + parts[0] + "" == parts[0];
    } else if i == 0 {
      ContainsAt("", parts[0], sep + JoinWith(sep, parts[1..]));
      assert "" + parts[0] + (sep + JoinWith(sep, parts[1..])) == JoinWith(sep, parts);
    } else {
      JoinContainsPart(sep, parts[1..], i - 1);
      ContainsWithin(parts[0] + sep, JoinWith(sep, parts[1..]), "", parts[i]);
      assert parts[0] + sep + JoinWith(sep, parts[1..]) + "" == JoinWith(sep, parts);
    }
  }

  /** The number of occurrences of c in s. */
  function CountChar(s: string, c: char): nat
  {
    if s == [] then 0 else (if s[0] == c then 1 else 0) + CountChar(s[1..], c)
  }

  lemma {:induction false} CountCharAppend(a: string, b: string, c: char)
    ensures CountChar(a + b, c) == CountChar(a, c) + CountChar(b, c)
    decreases |a|
  {
    if a != [] {
      assert (a + b)[1..] == a[1..] + b;
      CountCharAppend(a[1..], b, c);
    } else {
      assert a + b == b;
    }
  }

  /** str.split(c): the pieces between occurrences of c, one more than there
      are occurrences, none containing c. */
  function SplitOn(s: string, c: char): (r: seq<string>)
    ensures |r| == CountChar(s, c) + 1
    ensures forall i :: 0 <= i < |r| ==> c !in r[i]
    decreases |s|
  {
    if s == [] then [""]
    else
      var rest := SplitOn(s[1..], c);
      if s[0] == c then [""] + rest else [[s[0]] + rest[0]] + rest[1..]
  }

  /** sep.join(parts) */
  function JoinWith(sep: string, parts: seq<string>): string
    decreases |parts|
  {
    if parts == [] then ""
    else if |parts| == 1 then parts[0]
    else parts[0] + sep + JoinWith(sep, parts[1..])
  }

  /** Splitting on c and joining with c gives the string back. */
  lemma {:induction false} SplitOnJoin(s: string, c: char)
    ensures JoinWith([c], SplitOn(s, c)) == s
    decreases |s|
  {
    if s != [] {
      var rest := SplitOn(s[1..], c);
      SplitOnJoin(s[1..], c);
      if s[0] == c {
        assert ([""] + rest)[1..] == rest;
        assert JoinWith([c], [""] + rest) == "" + [c] + JoinWith([c], rest);
        assert s == [s[0]] + s[1..];
      } else {
        var r := [[s[0]] + rest[0]] + rest[1..];
        assert r[1..] == rest[1..];
        if |rest| == 1 {
          assert JoinWith([c], rest) == rest[0];
          assert s == [s[0]] + s[1..];
        } else {
          assert JoinWith([c], rest) == rest[0] + [c] + JoinWith([c], rest[1..]);
          assert s == [s[0]] + s[1..];
        }
      }
    }
  }

  function StripLeft(s: string, cs: set<char>): (r: string)
    ensures |r| <= |s| && r == s[|s| - |r|..]
    decreases |s|
  {
    if s != [] && s[0] in cs then StripLeft(s[1..], cs) else s
  }

  function StripRight(s: string, cs: set<char>): (r: string)
    ensures |r| <= |s| && r == s[..|r|]
    decreases |s|
  {
    if s != [] && s[|s| - 1] in cs then StripRight(s[..|s| - 1], cs) else s
  }

  /** str.strip(chars): remove every leading and trailing character in cs. */
  function Strip(s: string, cs: set<char>): string
  {
    StripRight(StripLeft(s, cs), cs)
  }

  /** str.strip() with no argument. */
  function Trim(s: string): string
  {
    Strip(s, Whitespace)
  }

  /** Neither end of t is a character of cs. */
  predicate NoEdgeIn(t: string, cs: set<char>)
  {
    t == [] || (t[0] !in cs && t[|t| - 1] !in cs)
  }

  lemma {:induction false} StripEdges(s: string, cs: set<char>)
    ensures NoEdgeIn(Strip(s, cs), cs)
  {
    var l := StripLeft(s, cs);
    StripLeftEdge(s, cs);
    StripRightEdge(l, cs);
  }

  lemma {:induction false} StripLeftEdge(s: string, cs: set<char>)
    ensures StripLeft(s, cs) == [] || StripLeft(s, cs)[0] !in cs
    decreases |s|
  {
    if s != [] && s[0] in cs {
      StripLeftEdge(s[1..], cs);
    }
  }

  /** Stripping on the right keeps the first character when one is left and
      it is not to be stripped. */
  lemma {:induction false} StripRightEdge(s: string, cs: set<char>)
    requires s == [] || s[0] !in cs
    ensures NoEdgeIn(StripRight(s, cs), cs)
    decreases |s|
  {
    if s != [] && s[|s| - 1] in cs {
      StripRightEdge(s[..|s| - 1], cs);
    }
  }

  /** Stripping characters out of cs keeps the count of any character c
      that is not in cs. */
  lemma {:induction false} StripKeepsCount(s: string, cs: set<char>, c: char)
    requires c !in cs
    ensures CountChar(Strip(s, cs), c) == CountChar(s, c)
  {
    StripLeftKeepsCount(s, cs, c);
    StripRightKeepsCount(StripLeft(s, cs), cs, c);
  }

  lemma {:induction false} StripLeftKeepsCount(s: string, cs: set<char>, c: char)
    requires c !in cs
    ensures CountChar(StripLeft(s, cs), c) == CountChar(s, c)
    decreases |s|
  {
    if s != [] && s[0] in cs {
      StripLeftKeepsCount(s[1..], cs, c);
    }
  }

  lemma {:induction false} StripRightKeepsCount(s: string, cs: set<char>, c: char)
    requires c !in cs
    ensures CountChar(StripRight(s, cs), c) == CountChar(s, c)
    decreases |s|
  {
    if s != [] && s[|s| - 1] in cs {
      var init := s[..|s| - 1];
      assert s == init + [s[|s| - 1]];
      CountCharAppend(init, [s[|s| - 1]], c);
      StripRightKeepsCount(init, cs, c);
    }
  }

  /** Every character of Strip(s, cs) comes from s. */
  lemma StripSubset(s: string, cs: set<char>, c: char)
    requires c in Strip(s, cs)
    ensures c in s
  {
    var l := StripLeft(s, cs);
    assert c in l;
  }

  /** str.replace(c, "") */
  function RemoveChar(s: string, c: char): (r: string)
    ensures c !in r
    decreases |s|
  {
    if s == [] then "" else (if s[0] == c then "" else [s[0]]) + RemoveChar(s[1..], c)
  }

  lemma {:induction false} RemoveKeepsCount(s: string, c: char, d: char)
    requires c != d
    ensures CountChar(RemoveChar(s, c), d) == CountChar(s, d)
    decreases |s|
  {
    if s != [] {
      var head := if s[0] == c then "" else [s[0]];
      CountCharAppend(head, RemoveChar(s[1..], c), d);
      RemoveKeepsCount(s[1..], c, d);
    }
  }

  /** The length of the run of non-space characters that starts s. */
  function WordLength(s: string): (n: nat)
    ensures n <= |s|
    decreases |s|
  {
    if s == [] || IsSpace(s[0]) then 0 else 1 + WordLength(s[1..])
  }

  /** str.split() with no argument: the maximal runs of non-space characters. */
  function Words(s: string): seq<string>
    decreases |s|
  {
    if s == [] then []
    else if IsSpace(s[0]) then Words(s[1..])
    else
      var n := WordLength(s);
      [s[..n]] + Words(s[n..])
  }

  function WordSet(s: string): set<string>
  {
    set w | w in Words(s)
  }

  predicate IsLetter(c: char)
  {
    'A' <= c <= 'Z' || 'a' <= c <= 'z'
  }

  function UpperChar(c: char): char
  {
    if 'a' <= c <= 'z' then (c as int - 32) as char else c
  }

  /** str.title(), ASCII only: a letter that follows a letter is lowered,
      any other letter is raised; other characters are kept. */
  function TitleFrom(s: string, afterLetter: bool): (r: string)
    ensures |r| == |s|
    decreases |s|
  {
    if s == [] then ""
    else
      var c := if !IsLetter(s[0]) then s[0] else if afterLetter then LowerChar(s[0]) else UpperChar(s[0]);
      [c] + TitleFrom(s[1..], IsLetter(s[0]))
  }

  function Title(s: string): string
  {
    TitleFrom(s, false)
  }

  /** One of a, b is a substring of the other. */
  predicate SubstringRelated(a: string, b: string)
  {
    Contains(b, a) || Contains(a, b)
  }

  /** any(key in s or s in key for s in skills) */
  predicate AnyRelated(key: string, skills: seq<string>)
    decreases |skills|
  {
    skills != [] && (SubstringRelated(key, skills[0]) || AnyRelated(key, skills[1..]))
  }

  lemma {:induction false} AnyRelatedIff(key: string, skills: seq<string>)
    ensures AnyRelated(key, skills) <==> exists i :: 0 <= i < |skills| && SubstringRelated(key, skills[i])
    decreases |skills|
  {
    if skills != [] {
      AnyRelatedIff(key, skills[1..]);
      if exists i :: 0 <= i < |skills| && SubstringRelated(key, skills[i]) {
        var i :| 0 <= i < |skills| && SubstringRelated(key, skills[i]);
        if i > 0 {
          assert skills[1..][i - 1] == skills[i];
        }
      }
      if AnyRelated(key, skills[1..]) {
        var i :| 0 <= i < |skills[1..]| && SubstringRelated(key, skills[1..][i]);
        assert skills[i + 1] == skills[1..][i];
      }
    }
  }

  /** One related skill is enough for any(...). */
  lemma {:induction false} AnyRelatedAt(key: string, skills: seq<string>, k: nat)
    requires k < |skills| && SubstringRelated(key, skills[k])
    ensures AnyRelated(key, skills)
    decreases k
  {
    if k > 0 {
      assert skills[1..][k - 1] == skills[k];
      AnyRelatedAt(key, skills[1..], k - 1);
    }
  }

  lemma {:induction false} AnyRelatedAppend(key: string, a: seq<string>, b: seq<string>)
    ensures AnyRelated(key, a + b) <==> AnyRelated(key, a) || AnyRelated(key, b)
    decreases |a|
  {
    if a == [] {
      assert a + b == b;
    } else {
      assert (a + b)[0] == a[0];
      assert (a + b)[1..] == a[1..] + b;
      AnyRelatedAppend(key, a[1..], b);
    }
  }

  /** any(...) over one more element. */
  lemma AnyRelatedSnoc(key: string, s: seq<string>, j: nat)
    requires j < |s|
    ensures AnyRelated(key, s[..j + 1]) <==> AnyRelated(key, s[..j]) || SubstringRelated(key, s[j])
  {
    assert s[..j + 1] == s[..j] + [s[j]];
    AnyRelatedAppend(key, s[..j], [s[j]]);
    assert [s[j]][1..] == [];
  }
}
