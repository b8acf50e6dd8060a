/** The conversion that AlternativeMatchingEngine.load_courses applies to the
    `prerequisites` and `skill_tags` columns of the course catalog: a cell
    holding a stringified list such as "['html', 'css']" becomes its tokens;
    any other cell (pandas gives a float NaN for an empty one) becomes []. */
module ListField {
  import opened Text

  /** A catalog cell as pandas reads it: a string, or some non-string value. */
  datatype Cell = Str(s: string) | NonString

  const Brackets: set<char> := {'[', ']'}

  /** A token Python's str.strip() leaves unchanged. */
  predicate Trimmed(t: string)
  {
    NoEdgeIn(t, Whitespace)
  }

  /** x.strip('[]').replace("'", "").split(',') before each piece is trimmed. */
  function RawTokens(s: string): (r: seq<string>)
    ensures |r| == CountChar(s, ',') + 1
    ensures forall i :: 0 <= i < |r| ==> ',' !in r[i] && '\'' !in r[i]
  {
    var unquoted := RemoveChar(Strip(s, Brackets), '\'');
    StripKeepsCount(s, Brackets, ',');
    RemoveKeepsCount(Strip(s, Brackets), '\'', ',');
    var pieces := SplitOn(unquoted, ',');
    assert forall i :: 0 <= i < |pieces| ==> '\'' !in pieces[i] by {
      forall i | 0 <= i < |pieces|
        ensures '\'' !in pieces[i]
      {
        SplitPieceChars(unquoted, ',', i, '\'');
      }
    }
    pieces
  }

  /** A character absent from s is absent from every piece of s.split(c). */
  lemma {:induction false} SplitPieceChars(s: string, c: char, i: nat, d: char)
    requires d !in s
    requires i < |SplitOn(s, c)|
    ensures d !in SplitOn(s, c)[i]
    decreases |s|
  {
    if s != [] {
      var rest := SplitOn(s[1..], c);
      if s[0] == c {
        if i > 0 {
          SplitPieceChars(s[1..], c, i - 1, d);
        }
      } else if i == 0 {
        SplitPieceChars(s[1..], c, 0, d);
      } else {
        SplitPieceChars(s[1..], c, i, d);
      }
    }
  }

  /** The lambda of load_courses, lines 23-26. */
  function ParseListField(x: Cell): (r: seq<string>)
    ensures x.NonString? ==> r == []
    ensures x.Str? ==> |r| == CountChar(x.s, ',') + 1
    ensures forall i :: 0 <= i < |r| ==> ',' !in r[i] && '\'' !in r[i] && Trimmed(r[i])
  {
    match x
    case NonString => []
    case Str(s) =>
      var raw := RawTokens(s);
      var r := seq(|raw|, i requires 0 <= i < |raw| => Trim(raw[i]));
      assert forall i :: 0 <= i < |r| ==> ',' !in r[i] && '\'' !in r[i] && Trimmed(r[i]) by {
        forall i | 0 <= i < |r|
          ensures ',' !in r[i] && '\'' !in r[i] && Trimmed(r[i])
        {
          StripEdges(raw[i], Whitespace);
          if ',' in r[i] { StripSubset(raw[i], Whitespace, ','); }
          if '\'' in r[i] { StripSubset(raw[i], Whitespace, '\''); }
        }
      }
      r
  }

  /** An empty stringified list does not parse to [] but to one empty token. */
  lemma EmptyListIsOneEmptyToken()
    ensures ParseListField(Str("[]")) == [""]
  {
    var stripped := Strip("[]", Brackets);
    assert StripLeft("[]", Brackets) == "";
    assert stripped == "";
    assert RemoveChar("", '\'') == "";
    assert RawTokens("[]") == [""];
    assert Trim("") == "";
  }
}
